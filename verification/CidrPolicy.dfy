/** Source and destination policies compiled to prefix lists and to blocks with exceptions. */
module CidrPolicy {
  import opened Wrappers
  import opened Cidr
  import opened CidrAggregate

  const MAX_EFFECTIVE_SOURCE_CIDRS := 4096

  // ----- Constants -----

  predicate BitAt(n: nat, place: nat) {
    (n / Pow2(place)) % 2 == 1
  }

  /** The w lowest bits of n, most significant first. */
  function Bits(n: nat, w: nat): (r: seq<bool>)
    ensures |r| == w
  {
    seq(w, i requires 0 <= i < w => BitAt(n, w - 1 - i))
  }

  lemma DoubleModulus(n: nat, q: nat)
    requires q > 0
    ensures n % (2 * q) == ((n / q) % 2) * q + n % q
  {
    var k, b, r := (n / q) / 2, (n / q) % 2, n % q;
    assert n == (n / q) * q + r && n / q == 2 * k + b;
    assert n == k * (2 * q) + (b * q + r) by {
      assert (2 * k + b) * q == k * (2 * q) + b * q;
    }
    QuotientIsUnique(n, 2 * q, k, b * q + r);
  }

  lemma QuotientIsUnique(n: nat, m: nat, k: nat, r: nat)
    requires m > 0 && n == k * m + r && r < m
    ensures n % m == r
  {
    var q := n / m;
    assert n == q * m + n % m;
    ScaledOrder(q + 1, k, m);
    ScaledOrder(k + 1, q, m);
  }

  lemma ScaledOrder(x: int, y: int, m: nat)
    ensures x <= y ==> x * m <= y * m
  {
    if x <= y { assert (y - x) * m >= 0; }
  }

  /** Bits is the binary expansion: read back as an integer it is n again, modulo the width. */
  lemma {:induction false} BitsReadBack(n: nat, w: nat)
    ensures First(Bits(n, w), w) == n % Pow2(w)
  {
    if w > 0 {
      BitsReadBack(n, w - 1);
      DoubleModulus(n, Pow2(w - 1));
      assert Bits(n, w)[1..] == Bits(n, w - 1) && Bits(n, w)[0] == BitAt(n, w - 1);
      assert ((n / Pow2(w - 1)) % 2) * Pow2(w - 1) == if BitAt(n, w - 1) then Pow2(w - 1) else 0;
      assert Pow2(w) == 2 * Pow2(w - 1);
    }
  }

  function V4Net(a: nat, b: nat, c: nat, d: nat, prefix: nat): (n: Net)
    requires prefix <= 32
    ensures Valid(n) && n.family == V4 && |n.bits| == prefix
  {
    Net(V4, (Bits(a, 8) + Bits(b, 8) + Bits(c, 8) + Bits(d, 8))[..prefix])
  }

  /** A network whose first sixteen bits, and last sixteen bits, are given; all others are zero. */
  function V6Net(first: nat, last: nat, prefix: nat): (n: Net)
    requires prefix <= 128
    ensures Valid(n) && n.family == V6 && |n.bits| == prefix
  {
    Net(V6, (Bits(first, 16) + Bits(0, 96) + Bits(last, 16))[..prefix])
  }

  const PUBLIC_ROOTS: seq<Net> := [V4Net(0, 0, 0, 0, 0), V6Net(0x2000, 0, 3)]

  const ALL_SOURCES: seq<Net> := [V4Net(0, 0, 0, 0, 0), V6Net(0, 0, 0)]

  const PROTECTED: seq<Net> := [
    V6Net(0, 0, 128), V6Net(0, 1, 128), V4Net(0, 0, 0, 0, 8), V4Net(10, 0, 0, 0, 8), V4Net(100, 64, 0, 0, 10),
    V4Net(127, 0, 0, 0, 8), V4Net(169, 254, 0, 0, 16), V4Net(172, 16, 0, 0, 12), V4Net(192, 0, 0, 0, 24),
    V4Net(192, 88, 99, 0, 24), V4Net(192, 168, 0, 0, 16), V4Net(198, 18, 0, 0, 15), V4Net(224, 0, 0, 0, 3),
    V6Net(0xfc00, 0, 7), V6Net(0xfe80, 0, 10), V6Net(0xff00, 0, 8)]

  lemma ConstantsValid()
    ensures AllValid(PUBLIC_ROOTS) && AllValid(ALL_SOURCES) && AllValid(PROTECTED)
    ensures forall a | IsAddress(a) :: InAny(a, ALL_SOURCES)
  {
    forall a | IsAddress(a) ensures InAny(a, ALL_SOURCES) {
      assert In(a, ALL_SOURCES[if a.family == V4 then 0 else 1]);
    }
  }

  // ----- Effective sources -----

  function Subtracted(nets: seq<Net>, denied: Net): seq<Net>
    decreases |nets|
  {
    if nets == [] then [] else Subtracted(nets[..|nets| - 1], denied) + Difference(nets[|nets| - 1], denied)
  }

  /** What the policy allows after its first k denials. */
  function EffectiveAfter(start: seq<Net>, denied: seq<Net>, k: nat): seq<Net>
    requires k <= |denied|
  {
    if k == 0 then start else Aggregate(Subtracted(EffectiveAfter(start, denied, k - 1), denied[k - 1]))
  }

  lemma {:induction false} SubtractedExact(nets: seq<Net>, denied: Net)
    requires AllValid(nets) && Valid(denied)
    ensures AllValid(Subtracted(nets, denied))
    ensures forall a | IsAddress(a) :: InAny(a, Subtracted(nets, denied)) <==> InAny(a, nets) && !In(a, denied)
    decreases |nets|
  {
    if nets != [] {
      var before, last := nets[..|nets| - 1], nets[|nets| - 1];
      assert last in nets && nets == before + [last];
      SubtractedExact(before, denied);
      DifferenceExact(last, denied);
      forall a | IsAddress(a) ensures InAny(a, Subtracted(nets, denied)) <==> InAny(a, nets) && !In(a, denied) {
        InConcat(a, Subtracted(before, denied), Difference(last, denied));
        InConcat(a, before, [last]);
        assert InAny(a, [last]) <==> In(a, last) by { assert [last][0] == last; }
      }
    }
  }

  lemma InConcat(a: Address, left: seq<Net>, right: seq<Net>)
    ensures InAny(a, left + right) <==> InAny(a, left) || InAny(a, right)
  {
  }

  lemma {:induction false} EffectiveAfterExact(start: seq<Net>, denied: seq<Net>, k: nat)
    requires AllValid(start) && AllValid(denied) && k <= |denied|
    ensures AllValid(EffectiveAfter(start, denied, k))
    ensures forall a | IsAddress(a) :: InAny(a, EffectiveAfter(start, denied, k)) <==>
      InAny(a, start) && !InAny(a, denied[..k])
  {
    if k > 0 {
      var before := EffectiveAfter(start, denied, k - 1);
      EffectiveAfterExact(start, denied, k - 1);
      assert denied[k - 1] in denied;
      SubtractedExact(before, denied[k - 1]);
      AggregateExact(Subtracted(before, denied[k - 1]));
      forall a | IsAddress(a) ensures InAny(a, denied[..k]) <==> InAny(a, denied[..k - 1]) || In(a, denied[k - 1]) {
        assert denied[..k] == denied[..k - 1] + [denied[k - 1]];
        InConcat(a, denied[..k - 1], [denied[k - 1]]);
        assert InAny(a, [denied[k - 1]]) <==> In(a, denied[k - 1]) by { assert [denied[k - 1]][0] == denied[k - 1]; }
      }
    }
  }

  function SourceRoots(allowed: seq<Net>): seq<Net> {
    if allowed == [] then ALL_SOURCES else Aggregate(allowed)
  }

  /** Exactly the addresses of some allowed network, or any if none is listed, that no denied network has. */
  ghost predicate ExactSources(effective: seq<Net>, allowed: seq<Net>, denied: seq<Net>) {
    forall a | IsAddress(a) :: InAny(a, effective) <==> (allowed == [] || InAny(a, allowed)) && !InAny(a, denied)
  }

  /** Subtracting this denial from what is left so far lists more networks than a policy may have. */
  ghost predicate Expands(start: seq<Net>, denied: seq<Net>, k: nat)
    requires k < |denied|
  {
    |Subtracted(EffectiveAfter(start, denied, k), denied[k])| > MAX_EFFECTIVE_SOURCE_CIDRS
  }

  method SubtractFromAll(effective: seq<Net>, denied: Net) returns (outcome: Result<seq<Net>, string>)
    ensures outcome.Ok? ==> outcome.value == Subtracted(effective, denied)
    ensures Valid(denied) ==> (outcome.Err? <==> |Subtracted(effective, denied)| > MAX_EFFECTIVE_SOURCE_CIDRS)
  {
    var next: seq<Net> := [];
    for i := 0 to |effective|
      invariant next == Subtracted(effective[..i], denied) && |next| <= MAX_EFFECTIVE_SOURCE_CIDRS
    {
      var r, out := SubtractNetwork(effective[i], denied, next);
      if r.Err? { return Err(r.error); }
      next := out;
      assert effective[..i + 1][..i] == effective[..i];
      SubtractedGrows(effective, denied, i + 1);
      if |next| > MAX_EFFECTIVE_SOURCE_CIDRS {
        return Err("source access policy expands beyond 4096 CIDRs");
      }
    }
    assert effective[..|effective|] == effective;
    return Ok(next);
  }

  lemma {:induction false} SubtractedGrows(nets: seq<Net>, denied: Net, n: nat)
    requires n <= |nets|
    ensures |Subtracted(nets[..n], denied)| <= |Subtracted(nets, denied)|
    decreases |nets|
  {
    if n == |nets| {
      assert nets[..n] == nets;
    } else {
      assert nets[..|nets| - 1][..n] == nets[..n];
      SubtractedGrows(nets[..|nets| - 1], denied, n);
    }
  }

  lemma SourceRootsExact(allowed: seq<Net>)
    requires AllValid(allowed)
    ensures AllValid(SourceRoots(allowed))
    ensures forall a | IsAddress(a) :: InAny(a, SourceRoots(allowed)) <==> (allowed == [] || InAny(a, allowed))
  {
    ConstantsValid();
    if allowed != [] { AggregateExact(allowed); }
  }

  lemma EffectiveIsExact(allowed: seq<Net>, denied: seq<Net>)
    requires AllValid(allowed) && AllValid(denied)
    ensures ExactSources(EffectiveAfter(SourceRoots(allowed), denied, |denied|), allowed, denied)
    ensures forall k | 0 <= k <= |denied| :: AllValid(EffectiveAfter(SourceRoots(allowed), denied, k))
  {
    SourceRootsExact(allowed);
    forall k | 0 <= k <= |denied| ensures AllValid(EffectiveAfter(SourceRoots(allowed), denied, k)) {
      EffectiveAfterExact(SourceRoots(allowed), denied, k);
    }
    EffectiveAfterExact(SourceRoots(allowed), denied, |denied|);
    assert denied[..|denied|] == denied;
  }

  method DenyOne(ghost start: seq<Net>, denied: seq<Net>, i: nat, effective: seq<Net>)
    returns (outcome: Result<seq<Net>, string>)
    requires i < |denied| && Valid(denied[i]) && effective == EffectiveAfter(start, denied, i)
    ensures outcome.Ok? ==> outcome.value == EffectiveAfter(start, denied, i + 1)
    ensures outcome.Err? <==> Expands(start, denied, i)
  {
    outcome := SubtractFromAll(effective, denied[i]);
    if outcome.Ok? { outcome := Ok(Aggregate(outcome.value)); }
  }

  ghost predicate NoneExpands(start: seq<Net>, denied: seq<Net>, n: nat)
    requires n <= |denied|
  {
    forall k | 0 <= k < n :: !Expands(start, denied, k)
  }

  method DenyAll(start: seq<Net>, denied: seq<Net>) returns (outcome: Result<seq<Net>, string>)
    requires AllValid(denied)
    ensures outcome.Ok? ==> outcome.value == EffectiveAfter(start, denied, |denied|)
    ensures outcome.Ok? <==> NoneExpands(start, denied, |denied|)
  {
    var effective := start;
    for i := 0 to |denied|
      invariant effective == EffectiveAfter(start, denied, i)
      invariant NoneExpands(start, denied, i)
    {
      assert denied[i] in denied;
      var next := DenyOne(start, denied, i, effective);
      if next.Err? { return Err(next.error); }
      effective := next.value;
    }
    return Ok(effective);
  }

  /** The load balancer's sources: aggregate the allow list, then take away the denials one by one. */
  method EffectiveSourceNetworks(allowed: seq<Net>, denied: seq<Net>) returns (outcome: Result<seq<Net>, string>)
    requires AllValid(allowed) && AllValid(denied)
    ensures outcome.Ok? ==> ExactSources(outcome.value, allowed, denied) && AllValid(outcome.value)
    ensures outcome.Ok? <==> NoneExpands(SourceRoots(allowed), denied, |denied|)
  {
    outcome := DenyAll(SourceRoots(allowed), denied);
    EffectiveIsExact(allowed, denied);
  }

  // ----- Blocks with exceptions -----

  datatype Block = Block(cidr: Net, except: seq<Net>)

  ghost predicate Admits(blocks: seq<Block>, a: Address) {
    exists b <- blocks :: In(a, b.cidr) && !InAny(a, b.except)
  }

  ghost predicate AdmitsExactly(blocks: seq<Block>, roots: seq<Net>, denied: seq<Net>) {
    forall a | IsAddress(a) :: Admits(blocks, a) <==> InAny(a, roots) && !InAny(a, denied)
  }

  /** Every exception lies strictly inside its block. */
  ghost predicate WellNested(blocks: seq<Block>) {
    forall b <- blocks :: forall e <- b.except :: Contains(b.cidr, e) && e != b.cidr
  }

  method Inside(cidr: Net, nets: seq<Net>) returns (kept: seq<Net>)
    ensures forall n :: n in kept <==> n in nets && Contains(cidr, n)
  {
    kept := [];
    for i := 0 to |nets|
      invariant forall n :: n in kept <==> n in nets[..i] && Contains(cidr, n)
    {
      if Contains(cidr, nets[i]) { kept := kept + [nets[i]]; }
      assert nets[..i + 1] == nets[..i] + [nets[i]];
    }
    assert nets[..|nets|] == nets;
  }

  /** The blocks made so far admit exactly what the roots visited so far have outside the denials. */
  ghost predicate BlocksSoFar(blocks: seq<Block>, roots: seq<Net>, denied: seq<Net>) {
    && AdmitsExactly(blocks, roots, denied) && WellNested(blocks)
  }

  lemma RootSwallowed(cidr: Net, denied: seq<Net>, a: Address)
    requires exists d <- denied :: Contains(d, cidr)
    ensures In(a, cidr) ==> InAny(a, denied)
  {
    if In(a, cidr) {
      var d :| d in denied && Contains(d, cidr);
      assert In(a, d);
    }
  }

  lemma PrefixesComparable(x: seq<bool>, y: seq<bool>, whole: seq<bool>)
    requires x <= whole && y <= whole
    ensures x <= y || y <= x
  {
    assert x == whole[..|x|] && y == whole[..|y|];
  }

  lemma RootExcepted(cidr: Net, except: seq<Net>, denied: seq<Net>, a: Address)
    requires !exists d <- denied :: Contains(d, cidr)
    requires forall n :: n in except <==> n in denied && Contains(cidr, n)
    requires In(a, cidr)
    ensures InAny(a, except) <==> InAny(a, denied)
  {
    if InAny(a, denied) {
      var d :| d in denied && In(a, d);
      assert !Contains(d, cidr);
      PrefixesComparable(d.bits, cidr.bits, a.bits);
      assert d in except;
    }
  }

  method IpBlocks(roots: seq<Net>, denied: seq<Net>) returns (blocks: seq<Block>)
    requires AllValid(roots) && AllValid(denied)
    ensures AdmitsExactly(blocks, roots, denied) && WellNested(blocks)
  {
    var denials, cidrs := Aggregate(denied), Aggregate(roots);
    AggregateExact(denied);
    AggregateExact(roots);
    blocks := [];
    for i := 0 to |cidrs|
      invariant BlocksSoFar(blocks, cidrs[..i], denials)
    {
      var cidr := cidrs[i];
      var before := blocks;
      if exists d <- denials :: Contains(d, cidr) {
        SkipRoot(before, cidrs[..i], cidr, denials);
      } else {
        var except := Inside(cidr, denials);
        AddRoot(before, cidrs[..i], cidr, except, denials);
        blocks := blocks + [Block(cidr, except)];
      }
      assert cidrs[..i + 1] == cidrs[..i] + [cidr];
    }
    assert cidrs[..|cidrs|] == cidrs;
  }

  lemma SkipRoot(blocks: seq<Block>, roots: seq<Net>, cidr: Net, denied: seq<Net>)
    requires BlocksSoFar(blocks, roots, denied) && exists d <- denied :: Contains(d, cidr)
    ensures BlocksSoFar(blocks, roots + [cidr], denied)
  {
    forall a | IsAddress(a) ensures Admits(blocks, a) <==> InAny(a, roots + [cidr]) && !InAny(a, denied) {
      RootSwallowed(cidr, denied, a);
      InSnoc(a, roots, cidr);
    }
  }

  lemma AddRoot(blocks: seq<Block>, roots: seq<Net>, cidr: Net, except: seq<Net>, denied: seq<Net>)
    requires BlocksSoFar(blocks, roots, denied) && !exists d <- denied :: Contains(d, cidr)
    requires forall n :: n in except <==> n in denied && Contains(cidr, n)
    ensures BlocksSoFar(blocks + [Block(cidr, except)], roots + [cidr], denied)
  {
    var b := Block(cidr, except);
    forall a | IsAddress(a) ensures Admits(blocks + [b], a) <==> InAny(a, roots + [cidr]) && !InAny(a, denied) {
      if In(a, cidr) { RootExcepted(cidr, except, denied, a); }
      InSnoc(a, roots, cidr);
      AdmitsSnoc(blocks, b, a);
    }
    forall e <- except ensures e != cidr {
      assert Contains(e, e);
    }
  }

  lemma InSnoc(a: Address, nets: seq<Net>, n: Net)
    ensures InAny(a, nets + [n]) <==> InAny(a, nets) || In(a, n)
  {
    InConcat(a, nets, [n]);
    assert [n][0] == n;
  }

  lemma AdmitsSnoc(blocks: seq<Block>, b: Block, a: Address)
    ensures Admits(blocks + [b], a) <==> Admits(blocks, a) || (In(a, b.cidr) && !InAny(a, b.except))
  {
    var all := blocks + [b];
    assert all[|blocks|] == b && forall x <- blocks :: x in all;
  }

  // ----- The two compiled policies -----

  /** The sources the Pod firewall admits for a public service. */
  method PublicSourceIpBlocks(allowed: seq<Net>, denied: seq<Net>) returns (blocks: seq<Block>)
    requires AllValid(allowed) && AllValid(denied)
    ensures AdmitsExactly(blocks, if allowed == [] then PUBLIC_ROOTS else allowed, denied + PROTECTED)
    ensures WellNested(blocks)
  {
    ConstantsValid();
    var roots := if allowed == [] then PUBLIC_ROOTS else allowed;
    blocks := IpBlocks(roots, denied + PROTECTED);
  }

  /**
   * The Pod firewall's sources are the load balancer's effective sources without the protected networks,
   * restricted to the public roots when no allow list is given.
   */
  lemma FirewallMatchesLoadBalancer(
    allowed: seq<Net>, denied: seq<Net>, effective: seq<Net>, blocks: seq<Block>, a: Address)
    requires ExactSources(effective, allowed, denied)
    requires AdmitsExactly(blocks, if allowed == [] then PUBLIC_ROOTS else allowed, denied + PROTECTED)
    requires IsAddress(a)
    ensures Admits(blocks, a) <==>
      InAny(a, effective) && !InAny(a, PROTECTED) && (allowed == [] ==> InAny(a, PUBLIC_ROOTS))
  {
    InConcat(a, denied, PROTECTED);
  }

  datatype EgressMode = Disabled | Restricted | Internet
  datatype EgressError = AllowListNeedsRestrictedMode | AllowListOverlapsProtected

  ghost predicate OverlapsProtected(allowed: seq<Net>) {
    exists n <- allowed, p <- PROTECTED :: NetworksOverlap(n, p)
  }

  /**
   * The destinations a workload may reach; an allow list outside restricted mode or into protected space is refused.
   */
  method DestinationIpBlocks(mode: EgressMode, allowed: seq<Net>, denied: seq<Net>, additional: seq<Net>)
    returns (outcome: Result<seq<Block>, EgressError>)
    requires AllValid(allowed) && AllValid(denied) && AllValid(additional)
    ensures outcome.Err? <==> (mode != Restricted && allowed != []) || OverlapsProtected(allowed)
    ensures outcome.Ok? ==>
      && WellNested(outcome.value)
      && forall a | IsAddress(a) :: Admits(outcome.value, a) <==>
           && (match mode
               case Disabled => false
               case Restricted => InAny(a, allowed)
               case Internet => InAny(a, PUBLIC_ROOTS))
           && !InAny(a, PROTECTED) && !InAny(a, additional) && !InAny(a, denied)
  {
    if mode != Restricted && allowed != [] { return Err(AllowListNeedsRestrictedMode); }
    if exists n <- allowed, p <- PROTECTED :: NetworksOverlap(n, p) { return Err(AllowListOverlapsProtected); }
    ConstantsValid();
    var roots := match mode case Disabled => [] case Restricted => allowed case Internet => PUBLIC_ROOTS;
    var blocks := IpBlocks(roots, PROTECTED + additional + denied);
    forall a | IsAddress(a)
      ensures InAny(a, PROTECTED + additional + denied) <==>
        InAny(a, PROTECTED) || InAny(a, additional) || InAny(a, denied)
    {
      InConcat(a, PROTECTED + additional, denied);
      InConcat(a, PROTECTED, additional);
    }
    return Ok(blocks);
  }

  /** An accepted allow list loses nothing to the protected networks. */
  lemma AcceptedAllowListIsUnprotected(allowed: seq<Net>, a: Address)
    requires AllValid(allowed) && !OverlapsProtected(allowed) && IsAddress(a) && InAny(a, allowed)
    ensures !InAny(a, PROTECTED)
  {
    ConstantsValid();
    var n :| n in allowed && In(a, n);
    forall p <- PROTECTED ensures !In(a, p) {
      OverlapIffSharedAddress(n, p);
    }
  }
}
