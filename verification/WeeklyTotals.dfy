/** Quota totals over durable usage records and over peers that have no record yet. */
module WeeklyTotals {
  import opened Wrappers
  import opened Metering

  datatype Scope = Account | Cloud | Member

  /** The service whose quota is checked: its account, its quota user and its cloud organization's accounts. */
  datatype Payer = Payer(organization: string, quotaUser: Option<string>, cloudAccounts: Option<set<string>>)

  datatype Totals = Totals(account: Counters, cloud: Counters, member: Counters)

  /** One service's usage as it is charged, with the user it is charged to. */
  datatype Charge = Charge(id: string, organization: string, owner: Option<string>, counters: Counters)

  const NO_USAGE := Counters(0, 0, 0)

  function In(t: Totals, scope: Scope): Counters {
    match scope case Account => t.account case Cloud => t.cloud case Member => t.member
  }

  predicate AccountMatch(p: Payer, organization: string) {
    organization == p.organization
  }

  predicate CloudMatch(p: Payer, organization: string) {
    p.cloudAccounts.Some? && organization in p.cloudAccounts.value
  }

  predicate Billable(p: Payer, organization: string) {
    AccountMatch(p, organization) || CloudMatch(p, organization)
  }

  predicate InScope(p: Payer, scope: Scope, c: Charge) {
    match scope
    case Account => AccountMatch(p, c.organization)
    case Cloud => CloudMatch(p, c.organization)
    case Member => AccountMatch(p, c.organization) && p.quotaUser.Some? && c.owner == p.quotaUser
  }

  // ----- The charges -----

  /** Owner by service; a later peer with the same identifier wins. */
  function Owners(peers: seq<Service>): map<string, Option<string>>
    decreases |peers|
  {
    if peers == [] then map[] else
    var peer := peers[|peers| - 1];
    Owners(peers[..|peers| - 1])[peer.id := peer.quotaUser]
  }

  function RecordCharge(owners: map<string, Option<string>>, record: Record): Charge {
    var owner := if record.quotaUser.Some? then record.quotaUser
                 else if record.id in owners then owners[record.id] else None;
    Charge(record.id, record.organization, owner, record.usage.counters)
  }

  function PeerCharge(now: int, peer: Service): Charge {
    Charge(peer.id, peer.organization, peer.quotaUser, ProjectedWeeklyUsage(peer, now).counters)
  }

  predicate RecordBillable(p: Payer, week: int, record: Record) {
    record.usage.week == week && Billable(p, record.organization)
  }

  predicate PeerBillable(p: Payer, recorded: set<string>, peer: Service) {
    peer.id !in recorded && Billable(p, peer.organization)
  }

  function RecordedIds(p: Payer, week: int, records: seq<Record>): set<string> {
    set record | record in records && RecordBillable(p, week, record) :: record.id
  }

  function RecordCharges(p: Payer, week: int, owners: map<string, Option<string>>, records: seq<Record>): seq<Charge>
    decreases |records|
  {
    if records == [] then [] else
    var record := records[|records| - 1];
    RecordCharges(p, week, owners, records[..|records| - 1]) +
    (if RecordBillable(p, week, record) then [RecordCharge(owners, record)] else [])
  }

  function PeerCharges(p: Payer, now: int, recorded: set<string>, peers: seq<Service>): seq<Charge>
    decreases |peers|
  {
    if peers == [] then [] else
    var peer := peers[|peers| - 1];
    PeerCharges(p, now, recorded, peers[..|peers| - 1]) +
    (if PeerBillable(p, recorded, peer) then [PeerCharge(now, peer)] else [])
  }

  function Charges(p: Payer, now: int, week: int, peers: seq<Service>, records: seq<Record>): seq<Charge> {
    RecordCharges(p, week, Owners(peers), records) + PeerCharges(p, now, RecordedIds(p, week, records), peers)
  }

  // ----- Totals -----

  function Amount(p: Payer, scope: Scope, r: Resource, c: Charge): nat {
    if InScope(p, scope, c) then At(c.counters, r) else 0
  }

  /** The unsaturated sum over the charges in scope. */
  function Total(p: Payer, scope: Scope, r: Resource, charges: seq<Charge>): nat
    decreases |charges|
  {
    if charges == [] then 0
    else Total(p, scope, r, charges[..|charges| - 1]) + Amount(p, scope, r, charges[|charges| - 1])
  }

  function AddUsage(total: Counters, usage: Counters): Counters {
    Counters(SaturatingAdd(total.cpu, usage.cpu), SaturatingAdd(total.memory, usage.memory),
             SaturatingAdd(total.gpu, usage.gpu))
  }

  ghost predicate Sums(p: Payer, t: Totals, charges: seq<Charge>) {
    forall scope, r :: At(In(t, scope), r) == Cap(Total(p, scope, r, charges))
  }

  method AddCharge(p: Payer, c: Charge, before: Totals, ghost charges: seq<Charge>) returns (totals: Totals)
    requires Sums(p, before, charges) && Billable(p, c.organization)
    ensures Sums(p, totals, charges + [c])
  {
    totals := before;
    if CloudMatch(p, c.organization) {
      totals := totals.(cloud := AddUsage(totals.cloud, c.counters));
    }
    if AccountMatch(p, c.organization) {
      totals := totals.(account := AddUsage(totals.account, c.counters));
      if p.quotaUser.Some? && c.owner == p.quotaUser {
        totals := totals.(member := AddUsage(totals.member, c.counters));
      }
    }
    forall scope, r ensures At(In(totals, scope), r) == Cap(Total(p, scope, r, charges + [c])) {
      assert (charges + [c])[..|charges|] == charges;
      assert At(In(before, scope), r) == Cap(Total(p, scope, r, charges));
      assert At(In(totals, scope), r) == Cap(At(In(before, scope), r) + Amount(p, scope, r, c));
    }
  }

  method CollectOwners(peers: seq<Service>) returns (owners: map<string, Option<string>>)
    ensures owners == Owners(peers)
  {
    owners := map[];
    for i := 0 to |peers|
      invariant owners == Owners(peers[..i])
    {
      assert peers[..i + 1][..i] == peers[..i];
      owners := owners[peers[i].id := peers[i].quotaUser];
    }
    assert peers[..|peers|] == peers;
  }

  method ChargeRecords(p: Payer, week: int, owners: map<string, Option<string>>, records: seq<Record>)
    returns (totals: Totals, recorded: set<string>)
    ensures Sums(p, totals, RecordCharges(p, week, owners, records)) && recorded == RecordedIds(p, week, records)
  {
    totals, recorded := Totals(NO_USAGE, NO_USAGE, NO_USAGE), {};
    for i := 0 to |records|
      invariant Sums(p, totals, RecordCharges(p, week, owners, records[..i]))
      invariant recorded == RecordedIds(p, week, records[..i])
    {
      var record := records[i];
      assert records[..i + 1][..i] == records[..i];
      RecordedIdsExtend(p, week, records[..i], record);
      assert records[..i + 1] == records[..i] + [record];
      ghost var done := RecordCharges(p, week, owners, records[..i]);
      assert done + [] == done;
      if record.usage.week == week && Billable(p, record.organization) {
        recorded := recorded + {record.id};
        totals := AddCharge(p, RecordCharge(owners, record), totals, done);
      }
    }
    assert records[..|records|] == records;
  }

  /** Records of this week first, then the peers none of them covers; all nine totals saturate. */
  method ComputeTotals(p: Payer, now: int, week: int, peers: seq<Service>, records: seq<Record>)
    returns (totals: Totals)
    ensures forall scope, r ::
      At(In(totals, scope), r) == Cap(Total(p, scope, r, Charges(p, now, week, peers, records)))
    ensures forall r :: At(totals.member, r) <= At(totals.account, r)
    ensures CloudMatch(p, p.organization) ==> forall r :: At(totals.account, r) <= At(totals.cloud, r)
  {
    var owners := CollectOwners(peers);
    var recorded: set<string>;
    totals, recorded := ChargeRecords(p, week, owners, records);
    ghost var first := RecordCharges(p, week, owners, records);
    assert first + [] == first;
    for i := 0 to |peers|
      invariant Sums(p, totals, first + PeerCharges(p, now, recorded, peers[..i]))
    {
      var peer := peers[i];
      assert peers[..i + 1][..i] == peers[..i];
      ghost var done := first + PeerCharges(p, now, recorded, peers[..i]);
      if peer.id !in recorded && Billable(p, peer.organization) {
        totals := AddCharge(p, PeerCharge(now, peer), totals, done);
        assert done + [PeerCharge(now, peer)] == first + PeerCharges(p, now, recorded, peers[..i + 1]);
      } else {
        assert done == first + PeerCharges(p, now, recorded, peers[..i + 1]);
      }
    }
    assert peers[..|peers|] == peers;
    SumsAreNested(p, totals, Charges(p, now, week, peers, records));
  }

  lemma SumsAreNested(p: Payer, t: Totals, charges: seq<Charge>)
    requires Sums(p, t, charges)
    ensures forall r :: At(t.member, r) <= At(t.account, r)
    ensures CloudMatch(p, p.organization) ==> forall r :: At(t.account, r) <= At(t.cloud, r)
  {
    forall r
      ensures At(t.member, r) <= At(t.account, r)
      ensures CloudMatch(p, p.organization) ==> At(t.account, r) <= At(t.cloud, r)
    {
      TotalsAreNested(p, r, charges);
      assert At(In(t, Member), r) == Cap(Total(p, Member, r, charges));
      assert At(In(t, Account), r) == Cap(Total(p, Account, r, charges));
      assert At(In(t, Cloud), r) == Cap(Total(p, Cloud, r, charges));
    }
  }

  lemma RecordedIdsExtend(p: Payer, week: int, records: seq<Record>, record: Record)
    ensures RecordedIds(p, week, records + [record]) ==
      RecordedIds(p, week, records) + (if RecordBillable(p, week, record) then {record.id} else {})
  {
    var all := records + [record];
    assert forall x :: x in all <==> x in records || x == record;
  }

  // ----- Exactly once, in any order -----

  ghost predicate DistinctRecords(records: seq<Record>) {
    forall i, j :: 0 <= i < j < |records| ==> records[i].id != records[j].id
  }

  ghost predicate DistinctPeers(peers: seq<Service>) {
    forall i, j :: 0 <= i < j < |peers| ==> peers[i].id != peers[j].id
  }

  ghost predicate DistinctCharges(charges: seq<Charge>) {
    forall i, j :: 0 <= i < j < |charges| ==> charges[i].id != charges[j].id
  }

  lemma {:induction false} RecordChargesExact(
    p: Payer, week: int, owners: map<string, Option<string>>, records: seq<Record>, c: Charge)
    ensures c in RecordCharges(p, week, owners, records) <==>
      exists record :: record in records && RecordBillable(p, week, record) && c == RecordCharge(owners, record)
    decreases |records|
  {
    if records != [] {
      var before, record := records[..|records| - 1], records[|records| - 1];
      RecordChargesExact(p, week, owners, before, c);
      assert forall x :: x in records <==> x in before || x == record;
    }
  }

  lemma {:induction false} PeerChargesExact(p: Payer, now: int, recorded: set<string>, peers: seq<Service>, c: Charge)
    ensures c in PeerCharges(p, now, recorded, peers) <==>
      exists peer :: peer in peers && PeerBillable(p, recorded, peer) && c == PeerCharge(now, peer)
    decreases |peers|
  {
    if peers != [] {
      var before, peer := peers[..|peers| - 1], peers[|peers| - 1];
      PeerChargesExact(p, now, recorded, before, c);
      assert forall x :: x in peers <==> x in before || x == peer;
    }
  }

  lemma {:induction false} RecordChargesDistinct(
    p: Payer, week: int, owners: map<string, Option<string>>, records: seq<Record>)
    requires DistinctRecords(records)
    ensures DistinctCharges(RecordCharges(p, week, owners, records))
    decreases |records|
  {
    if records != [] {
      var before, record := records[..|records| - 1], records[|records| - 1];
      RecordChargesDistinct(p, week, owners, before);
      forall c | c in RecordCharges(p, week, owners, before) ensures c.id != record.id {
        RecordChargesExact(p, week, owners, before, c);
      }
    }
  }

  lemma {:induction false} PeerChargesDistinct(p: Payer, now: int, recorded: set<string>, peers: seq<Service>)
    requires DistinctPeers(peers)
    ensures DistinctCharges(PeerCharges(p, now, recorded, peers))
    decreases |peers|
  {
    if peers != [] {
      var before, peer := peers[..|peers| - 1], peers[|peers| - 1];
      PeerChargesDistinct(p, now, recorded, before);
      forall c | c in PeerCharges(p, now, recorded, before) ensures c.id != peer.id {
        PeerChargesExact(p, now, recorded, before, c);
      }
    }
  }

  /** A service is charged by its record of this week, or by its projection when it has none, and never twice. */
  lemma EachServiceIsChargedOnce(p: Payer, now: int, week: int, peers: seq<Service>, records: seq<Record>, c: Charge)
    requires DistinctRecords(records) && DistinctPeers(peers)
    ensures DistinctCharges(Charges(p, now, week, peers, records))
    ensures c in Charges(p, now, week, peers, records) <==>
      || (exists record :: record in records && RecordBillable(p, week, record)
                           && c == RecordCharge(Owners(peers), record))
      || (exists peer :: peer in peers && PeerBillable(p, RecordedIds(p, week, records), peer)
                         && c == PeerCharge(now, peer))
  {
    var owners, recorded := Owners(peers), RecordedIds(p, week, records);
    RecordChargesExact(p, week, owners, records, c);
    PeerChargesExact(p, now, recorded, peers, c);
    RecordChargesDistinct(p, week, owners, records);
    PeerChargesDistinct(p, now, recorded, peers);
    forall d | d in RecordCharges(p, week, owners, records) ensures d.id in recorded {
      RecordChargesExact(p, week, owners, records, d);
    }
    forall d | d in PeerCharges(p, now, recorded, peers) ensures d.id !in recorded {
      PeerChargesExact(p, now, recorded, peers, d);
    }
  }

  lemma {:induction false} OwnersExact(peers: seq<Service>, id: string)
    requires DistinctPeers(peers)
    ensures id in Owners(peers) <==> exists peer :: peer in peers && peer.id == id
    ensures forall peer :: peer in peers ==> peer.id in Owners(peers) && Owners(peers)[peer.id] == peer.quotaUser
    decreases |peers|
  {
    if peers != [] {
      var before, peer := peers[..|peers| - 1], peers[|peers| - 1];
      OwnersExact(before, id);
      assert forall x :: x in peers <==> x in before || x == peer;
    }
  }

  lemma OwnersSame(left: seq<Service>, right: seq<Service>)
    requires DistinctPeers(left) && DistinctPeers(right) && (forall x :: x in left <==> x in right)
    ensures Owners(left) == Owners(right)
  {
    forall id ensures id in Owners(left) <==> id in Owners(right) {
      OwnersExact(left, id);
      OwnersExact(right, id);
    }
    forall id | id in Owners(left) ensures Owners(left)[id] == Owners(right)[id] {
      OwnersExact(left, id);
      OwnersExact(right, id);
    }
  }

  lemma {:induction false} TotalConcat(p: Payer, scope: Scope, r: Resource, left: seq<Charge>, right: seq<Charge>)
    ensures Total(p, scope, r, left + right) == Total(p, scope, r, left) + Total(p, scope, r, right)
    decreases |right|
  {
    if right == [] {
      assert left + right == left;
    } else {
      var n := |right| - 1;
      TotalConcat(p, scope, r, left, right[..n]);
      assert (left + right)[..|left| + n] == left + right[..n];
    }
  }

  /** Taking a charge out of the middle takes its amount out of the total. */
  lemma TotalWithout(p: Payer, scope: Scope, r: Resource, charges: seq<Charge>, i: nat)
    requires i < |charges|
    ensures Total(p, scope, r, charges) ==
      Total(p, scope, r, charges[..i] + charges[i + 1..]) + Amount(p, scope, r, charges[i])
  {
    var left, right := charges[..i], charges[i + 1..];
    assert charges == charges[..i + 1] + right;
    TotalConcat(p, scope, r, charges[..i + 1], right);
    TotalConcat(p, scope, r, left, right);
    assert charges[..i + 1][..i] == left;
  }

  lemma FirstIsIn(charges: seq<Charge>)
    ensures charges == [] || charges[0] in charges
  {
  }

  /** Charges without repetition have a total that depends only on which charges there are. */
  lemma {:induction false} TotalOfSameCharges(
    p: Payer, scope: Scope, r: Resource, left: seq<Charge>, right: seq<Charge>)
    requires DistinctCharges(left) && DistinctCharges(right) && (forall c :: c in left <==> c in right)
    ensures Total(p, scope, r, left) == Total(p, scope, r, right)
    decreases |left|
  {
    if left == [] {
      FirstIsIn(right);
    } else {
      var n := |left| - 1;
      var c := left[n];
      assert c in right;
      var i :| 0 <= i < |right| && right[i] == c;
      var rest := right[..i] + right[i + 1..];
      TotalWithout(p, scope, r, right, i);
      Without(left, n);
      assert left[..n] + left[n + 1..] == left[..n];
      Without(right, i);
      TotalOfSameCharges(p, scope, r, left[..n], rest);
    }
  }

  lemma Without(charges: seq<Charge>, i: nat)
    requires i < |charges| && DistinctCharges(charges)
    ensures var rest := charges[..i] + charges[i + 1..];
      DistinctCharges(rest) && forall c :: c in rest <==> c in charges && c != charges[i]
  {
    var rest := charges[..i] + charges[i + 1..];
    forall c ensures c in rest <==> c in charges && c != charges[i] {
      if c in charges && c != charges[i] {
        var k :| 0 <= k < |charges| && charges[k] == c;
        assert if k < i then rest[k] == c else rest[k - 1] == c;
      }
    }
  }

  /** Every total is the same whatever order the records and the peers are listed in. */
  lemma ListingOrderIsIrrelevant(
    p: Payer, now: int, week: int, scope: Scope, r: Resource,
    peers: seq<Service>, records: seq<Record>, peers': seq<Service>, records': seq<Record>)
    requires DistinctRecords(records) && DistinctPeers(peers) && DistinctRecords(records') && DistinctPeers(peers')
    requires (forall x :: x in peers <==> x in peers') && (forall x :: x in records <==> x in records')
    ensures Total(p, scope, r, Charges(p, now, week, peers, records)) ==
            Total(p, scope, r, Charges(p, now, week, peers', records'))
  {
    OwnersSame(peers, peers');
    var left, right := Charges(p, now, week, peers, records), Charges(p, now, week, peers', records');
    assert RecordedIds(p, week, records) == RecordedIds(p, week, records');
    var some := Charge("", "", None, NO_USAGE);
    EachServiceIsChargedOnce(p, now, week, peers, records, some);
    EachServiceIsChargedOnce(p, now, week, peers', records', some);
    forall c ensures c in left <==> c in right {
      EachServiceIsChargedOnce(p, now, week, peers, records, c);
      EachServiceIsChargedOnce(p, now, week, peers', records', c);
    }
    TotalOfSameCharges(p, scope, r, left, right);
  }

  /** A member is never charged more than its account, nor a listed account more than its cloud organization. */
  lemma {:induction false} TotalsAreNested(p: Payer, r: Resource, charges: seq<Charge>)
    ensures Total(p, Member, r, charges) <= Total(p, Account, r, charges)
    ensures CloudMatch(p, p.organization) ==> Total(p, Account, r, charges) <= Total(p, Cloud, r, charges)
    decreases |charges|
  {
    if charges != [] { TotalsAreNested(p, r, charges[..|charges| - 1]); }
  }

  // ----- Ceilings -----

  /** GPU second ceilings: always one for the account, possibly one for the cloud organization and the member. */
  datatype Limits = Limits(account: nat, cloud: Option<nat>, member: Option<nat>)

  function Remaining(limit: nat, used: nat): nat {
    if limit < used then 0 else limit - used
  }

  function RemainingIn(limit: Option<nat>, used: nat): nat {
    if limit.Some? then Remaining(limit.value, used) else U64_MAX
  }

  function GpuRemaining(limits: Limits, t: Totals): nat {
    Min(Min(Remaining(limits.account, t.account.gpu), RemainingIn(limits.cloud, t.cloud.gpu)),
        RemainingIn(limits.member, t.member.gpu))
  }

  predicate CeilingReached(limits: Limits, t: Totals) {
    || t.account.gpu >= limits.account
    || (limits.cloud.Some? && t.cloud.gpu >= limits.cloud.value)
    || (limits.member.Some? && t.member.gpu >= limits.member.value)
  }

  /** No GPU seconds remain exactly when a ceiling is reached, and otherwise using what remains reaches one. */
  lemma RemainingIsDistanceToCeiling(limits: Limits, t: Totals, more: nat)
    requires limits.account <= U64_MAX
    ensures GpuRemaining(limits, t) == 0 <==> CeilingReached(limits, t)
    ensures
      var later := Totals(t.account.(gpu := t.account.gpu + more), t.cloud.(gpu := t.cloud.gpu + more),
                          t.member.(gpu := t.member.gpu + more));
      CeilingReached(limits, later) <==> more >= GpuRemaining(limits, t)
  {
  }
}
