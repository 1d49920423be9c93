/**
 * Aggregation of a list of networks into its shortest list of disjoint prefixes, as IpNet::aggregate does it:
 * the networks are merged in a binary trie, where two full halves become one full prefix.
 */
module CidrAggregate {
  import opened Cidr

  datatype Trie = Empty | Full | Node(zero: Trie, one: Trie)

  function Join(zero: Trie, one: Trie): Trie {
    if zero == Full && one == Full then Full
    else if zero == Empty && one == Empty then Empty
    else Node(zero, one)
  }

  function Half(t: Trie, bit: bool): Trie {
    match t
    case Empty => Empty
    case Full => Full
    case Node(zero, one) => if bit then one else zero
  }

  function Insert(t: Trie, bits: seq<bool>): Trie
    decreases |bits|
  {
    if bits == [] || t == Full then Full
    else if bits[0] then Join(Half(t, false), Insert(Half(t, true), bits[1..]))
    else Join(Insert(Half(t, false), bits[1..]), Half(t, true))
  }

  predicate Member(t: Trie, address: seq<bool>)
    decreases |address|
  {
    if address == [] then t == Full else Member(Half(t, address[0]), address[1..])
  }

  /** No deeper than w, and every two equal halves merged. */
  predicate Normal(t: Trie, w: nat) {
    match t
    case Empty => true
    case Full => true
    case Node(zero, one) =>
      && w > 0 && Normal(zero, w - 1) && Normal(one, w - 1)
      && !(zero == Full && one == Full) && !(zero == Empty && one == Empty)
  }

  function Listing(t: Trie, prefix: seq<bool>): seq<seq<bool>> {
    match t
    case Empty => []
    case Full => [prefix]
    case Node(zero, one) => Listing(zero, prefix + [false]) + Listing(one, prefix + [true])
  }

  lemma {:induction false} ConstantTrie(address: seq<bool>)
    ensures Member(Full, address) && !Member(Empty, address)
  {
    if address != [] { ConstantTrie(address[1..]); }
  }

  lemma JoinExact(zero: Trie, one: Trie, w: nat, address: seq<bool>)
    requires w > 0 && Normal(zero, w - 1) && Normal(one, w - 1) && |address| == w
    ensures Normal(Join(zero, one), w)
    ensures Member(Join(zero, one), address) <==> Member(if address[0] then one else zero, address[1..])
  {
    ConstantTrie(address[1..]);
  }

  lemma {:induction false} InsertExact(t: Trie, bits: seq<bool>, w: nat, address: seq<bool>)
    requires Normal(t, w) && |bits| <= w && |address| == w
    ensures Normal(Insert(t, bits), w)
    ensures Member(Insert(t, bits), address) <==> Member(t, address) || bits <= address
    decreases |bits|
  {
    ConstantTrie(address);
    if bits != [] && t != Full {
      InsertExact(Half(t, bits[0]), bits[1..], w - 1, address[1..]);
      var grown := Insert(Half(t, bits[0]), bits[1..]);
      if bits[0] { JoinExact(Half(t, false), grown, w, address); } else { JoinExact(grown, Half(t, true), w, address); }
      assert bits <= address <==> bits[0] == address[0] && bits[1..] <= address[1..];
    }
  }

  /** The listing of a trie has exactly its members, and no listed prefix covers another. */
  lemma {:induction false} ListingExact(t: Trie, prefix: seq<bool>, w: nat)
    requires Normal(t, w)
    ensures forall p <- Listing(t, prefix) :: prefix <= p && |p| <= |prefix| + w
    ensures Incomparable(Listing(t, prefix))
    decreases t
  {
    if t.Node? {
      ListingExact(t.zero, prefix + [false], w - 1);
      ListingExact(t.one, prefix + [true], w - 1);
      var zeros, ones := Listing(t.zero, prefix + [false]), Listing(t.one, prefix + [true]);
      forall p <- zeros ensures prefix <= p && p[|prefix|] == false { assert prefix + [false] <= p; }
      forall p <- ones ensures prefix <= p && p[|prefix|] == true { assert prefix + [true] <= p; }
      HalvesIncomparable(zeros, ones, |prefix|);
    }
  }

  ghost predicate Incomparable(prefixes: seq<seq<bool>>) {
    forall i, k | 0 <= i < k < |prefixes| :: !(prefixes[i] <= prefixes[k]) && !(prefixes[k] <= prefixes[i])
  }

  lemma HalvesIncomparable(zeros: seq<seq<bool>>, ones: seq<seq<bool>>, n: nat)
    requires Incomparable(zeros) && Incomparable(ones)
    requires (forall p <- zeros :: |p| > n && !p[n]) && forall p <- ones :: |p| > n && p[n]
    ensures Incomparable(zeros + ones)
  {
    var all := zeros + ones;
    forall i, k | 0 <= i < k < |all| ensures !(all[i] <= all[k]) && !(all[k] <= all[i]) {
      if k < |zeros| { assert all[i] == zeros[i] && all[k] == zeros[k]; }
      else if i >= |zeros| { assert all[i] == ones[i - |zeros|] && all[k] == ones[k - |zeros|]; }
      else { assert zeros[i] in zeros && ones[k - |zeros|] in ones; }
    }
  }

  ghost predicate Covers(prefixes: seq<seq<bool>>, bits: seq<bool>) {
    exists i | 0 <= i < |prefixes| :: prefixes[i] <= bits
  }

  lemma {:induction false} ListingMembers(t: Trie, prefix: seq<bool>, w: nat, address: seq<bool>)
    requires Normal(t, w) && |address| == w
    ensures Covers(Listing(t, prefix), prefix + address) <==> Member(t, address)
    decreases t
  {
    ConstantTrie(address);
    match t
    case Empty =>
    case Full => assert Listing(t, prefix)[0] <= prefix + address;
    case Node(zero, one) =>
      var b := address[0];
      var zeros, ones := Listing(zero, prefix + [false]), Listing(one, prefix + [true]);
      assert prefix + address == prefix + [b] + address[1..];
      ListingMembers(Half(t, b), prefix + [b], w - 1, address[1..]);
      ListingExact(zero, prefix + [false], w - 1);
      ListingExact(one, prefix + [true], w - 1);
      OtherHalfCoversNot(Listing(Half(t, !b), prefix + [!b]), prefix, address);
      CoversEither(zeros, ones, prefix + address);
  }

  lemma OtherHalfCoversNot(others: seq<seq<bool>>, prefix: seq<bool>, address: seq<bool>)
    requires address != [] && forall p <- others :: prefix + [!address[0]] <= p
    ensures !Covers(others, prefix + address)
  {
    forall i | 0 <= i < |others| ensures !(others[i] <= prefix + address) {
      var p := others[i];
      assert p in others && p[|prefix|] == !address[0] && (prefix + address)[|prefix|] == address[0];
    }
  }

  lemma CoversEither(zeros: seq<seq<bool>>, ones: seq<seq<bool>>, bits: seq<bool>)
    ensures Covers(zeros + ones, bits) <==> Covers(zeros, bits) || Covers(ones, bits)
  {
    var all := zeros + ones;
    if Covers(zeros, bits) {
      var i :| 0 <= i < |zeros| && zeros[i] <= bits;
      assert all[i] <= bits;
    } else if Covers(ones, bits) {
      var i :| 0 <= i < |ones| && ones[i] <= bits;
      assert all[|zeros| + i] <= bits;
    }
  }

  lemma {:induction false} InsertListsAtMostOneMore(t: Trie, bits: seq<bool>, prefix: seq<bool>)
    ensures |Listing(Insert(t, bits), prefix)| <= |Listing(t, prefix)| + 1
    decreases |bits|
  {
    if bits != [] && t != Full {
      InsertListsAtMostOneMore(Half(t, bits[0]), bits[1..], prefix + [bits[0]]);
    }
  }

  /** Normal tries with the same members are the same trie. */
  lemma {:induction false} NormalFormIsUnique(t: Trie, u: Trie, w: nat)
    requires Normal(t, w) && Normal(u, w)
    requires forall a | |a| == w :: Member(t, a) <==> Member(u, a)
    ensures t == u
    decreases w
  {
    if w == 0 {
      assert Member(t, []) <==> Member(u, []);
    } else {
      forall b: bool ensures Half(t, b) == Half(u, b) {
        forall a | |a| == w - 1 ensures Member(Half(t, b), a) <==> Member(Half(u, b), a) {
          assert ([b] + a)[1..] == a;
          assert Member(t, [b] + a) <==> Member(u, [b] + a);
        }
        NormalFormIsUnique(Half(t, b), Half(u, b), w - 1);
      }
      assert Half(t, false) == Half(u, false) && Half(t, true) == Half(u, true);
    }
  }

  // ----- Aggregation -----

  /** All networks of one family merged. */
  function Merge(nets: seq<Net>, f: Family): Trie {
    if nets == [] then Empty
    else if nets[0].family == f then Insert(Merge(nets[1..], f), nets[0].bits)
    else Merge(nets[1..], f)
  }

  function Networks(prefixes: seq<seq<bool>>, f: Family): seq<Net> {
    seq(|prefixes|, i requires 0 <= i < |prefixes| => Net(f, prefixes[i]))
  }

  function ListingOf(t: Trie, f: Family): seq<Net> {
    Networks(Listing(t, []), f)
  }

  function Aggregate(nets: seq<Net>): seq<Net> {
    ListingOf(Merge(nets, V4), V4) + ListingOf(Merge(nets, V6), V6)
  }

  lemma {:induction false} MergeExact(nets: seq<Net>, f: Family, address: seq<bool>)
    requires AllValid(nets) && |address| == Width(f)
    ensures Normal(Merge(nets, f), Width(f))
    ensures Member(Merge(nets, f), address) <==> InAny(Address(f, address), nets)
  {
    if nets == [] {
      ConstantTrie(address);
    } else {
      assert nets[0] in nets && forall n <- nets[1..] :: n in nets;
      MergeExact(nets[1..], f, address);
      assert InAny(Address(f, address), nets) <==>
        In(Address(f, address), nets[0]) || InAny(Address(f, address), nets[1..]);
      if nets[0].family == f {
        InsertExact(Merge(nets[1..], f), nets[0].bits, Width(f), address);
      }
    }
  }

  lemma {:induction false} MergeListsNoMore(nets: seq<Net>)
    ensures |Listing(Merge(nets, V4), [])| + |Listing(Merge(nets, V6), [])| <= |nets|
  {
    if nets != [] {
      MergeListsNoMore(nets[1..]);
      InsertListsAtMostOneMore(Merge(nets[1..], nets[0].family), nets[0].bits, []);
    }
  }

  lemma NetworksCover(prefixes: seq<seq<bool>>, f: Family, a: Address)
    requires a.family == f
    ensures InAny(a, Networks(prefixes, f)) <==> Covers(prefixes, a.bits)
  {
    var nets := Networks(prefixes, f);
    if Covers(prefixes, a.bits) {
      var i :| 0 <= i < |prefixes| && prefixes[i] <= a.bits;
      assert In(a, nets[i]) && nets[i] in nets;
    }
    if InAny(a, nets) {
      var i :| 0 <= i < |nets| && In(a, nets[i]);
      assert prefixes[i] <= a.bits && prefixes[i] in prefixes;
    }
  }

  lemma ListingOfShape(t: Trie, f: Family)
    requires Normal(t, Width(f))
    ensures AllValid(ListingOf(t, f)) && PairwiseDisjoint(ListingOf(t, f))
    ensures forall n <- ListingOf(t, f) :: n.family == f
  {
    ListingExact(t, [], Width(f));
    var prefixes, nets := Listing(t, []), ListingOf(t, f);
    assert forall i | 0 <= i < |nets| :: nets[i] == Net(f, prefixes[i]) && prefixes[i] in prefixes;
  }

  lemma ListingOfExact(t: Trie, f: Family)
    requires Normal(t, Width(f))
    ensures AllValid(ListingOf(t, f)) && PairwiseDisjoint(ListingOf(t, f))
    ensures forall n <- ListingOf(t, f) :: n.family == f
    ensures forall a | IsAddress(a) && a.family == f :: InAny(a, ListingOf(t, f)) <==> Member(t, a.bits)
  {
    ListingOfShape(t, f);
    forall a | IsAddress(a) && a.family == f ensures InAny(a, ListingOf(t, f)) <==> Member(t, a.bits) {
      ListingMembers(t, [], Width(f), a.bits);
      assert [] + a.bits == a.bits;
      NetworksCover(Listing(t, []), f, a);
    }
  }

  /** Aggregation keeps the addresses, yields disjoint networks, and never lengthens the list. */
  lemma AggregateExact(nets: seq<Net>)
    requires AllValid(nets)
    ensures AllValid(Aggregate(nets)) && PairwiseDisjoint(Aggregate(nets)) && |Aggregate(nets)| <= |nets|
    ensures forall a | IsAddress(a) :: InAny(a, Aggregate(nets)) <==> InAny(a, nets)
  {
    MergeExact(nets, V4, seq(32, _ => false));
    MergeExact(nets, V6, seq(128, _ => false));
    ListingOfExact(Merge(nets, V4), V4);
    ListingOfExact(Merge(nets, V6), V6);
    MergeListsNoMore(nets);
    var v4, v6 := ListingOf(Merge(nets, V4), V4), ListingOf(Merge(nets, V6), V6);
    FamiliesDisjoint(v4, v6);
    forall a | IsAddress(a) ensures InAny(a, v4 + v6) <==> InAny(a, nets) {
      MergeExact(nets, a.family, a.bits);
      assert Address(a.family, a.bits) == a;
      assert InAny(a, v4 + v6) <==> InAny(a, v4) || InAny(a, v6);
    }
  }

  lemma FamiliesDisjoint(v4: seq<Net>, v6: seq<Net>)
    requires PairwiseDisjoint(v4) && PairwiseDisjoint(v6)
    requires (forall n <- v4 :: n.family == V4) && forall n <- v6 :: n.family == V6
    ensures PairwiseDisjoint(v4 + v6)
  {
    var all := v4 + v6;
    forall i, k | 0 <= i < k < |all| ensures !NetworksOverlap(all[i], all[k]) {
      if k < |v4| { assert all[i] == v4[i] && all[k] == v4[k]; }
      else if i >= |v4| { assert all[i] == v6[i - |v4|] && all[k] == v6[k - |v4|]; }
      else { assert v4[i] in v4 && v6[k - |v4|] in v6; }
    }
  }

  /** The result depends only on which addresses are covered. */
  lemma AggregateIsCanonical(nets: seq<Net>, others: seq<Net>)
    requires AllValid(nets) && AllValid(others)
    requires forall a | IsAddress(a) :: InAny(a, nets) <==> InAny(a, others)
    ensures Aggregate(nets) == Aggregate(others)
  {
    MergeIsCanonical(nets, others, V4);
    MergeIsCanonical(nets, others, V6);
  }

  lemma MergeIsCanonical(nets: seq<Net>, others: seq<Net>, f: Family)
    requires AllValid(nets) && AllValid(others)
    requires forall a | IsAddress(a) :: InAny(a, nets) <==> InAny(a, others)
    ensures Merge(nets, f) == Merge(others, f)
  {
    MergeExact(nets, f, seq(Width(f), _ => false));
    MergeExact(others, f, seq(Width(f), _ => false));
    forall a | |a| == Width(f) ensures Member(Merge(nets, f), a) <==> Member(Merge(others, f), a) {
      MergeExact(nets, f, a);
      MergeExact(others, f, a);
      assert IsAddress(Address(f, a));
    }
    NormalFormIsUnique(Merge(nets, f), Merge(others, f), Width(f));
  }
}
