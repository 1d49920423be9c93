/**
 * IP networks as the prefixes of section 3.1 of RFC 4632 and section 2.3 of RFC 4291: a family and the
 * leading bits every member address starts with. An address has all the bits of its family.
 */
module Cidr {
  import opened Wrappers

  datatype Family = V4 | V6
  datatype Net = Net(family: Family, bits: seq<bool>)
  datatype Address = Address(family: Family, bits: seq<bool>)

  function Width(f: Family): nat {
    if f == V4 then 32 else 128
  }

  predicate Valid(n: Net) {
    |n.bits| <= Width(n.family)
  }

  predicate AllValid(nets: seq<Net>) {
    forall n <- nets :: Valid(n)
  }

  predicate IsAddress(a: Address) {
    |a.bits| == Width(a.family)
  }

  predicate In(a: Address, n: Net) {
    a.family == n.family && n.bits <= a.bits
  }

  predicate InAny(a: Address, nets: seq<Net>) {
    exists n <- nets :: In(a, n)
  }

  predicate Contains(outer: Net, inner: Net) {
    outer.family == inner.family && outer.bits <= inner.bits
  }

  predicate NetworksOverlap(left: Net, right: Net) {
    Contains(left, right) || Contains(right, left)
  }

  // ----- Containment is range containment -----

  function Pow2(n: nat): (r: nat)
    ensures r >= 1
  {
    if n == 0 then 1 else 2 * Pow2(n - 1)
  }

  /** The first and last address of a prefix of a w-bit space, as integers. */
  function First(bits: seq<bool>, w: nat): nat
    requires |bits| <= w
  {
    if bits == [] then 0 else (if bits[0] then Pow2(w - 1) else 0) + First(bits[1..], w - 1)
  }

  function Last(bits: seq<bool>, w: nat): int
    requires |bits| <= w
  {
    if bits == [] then Pow2(w) - 1 else (if bits[0] then Pow2(w - 1) else 0) + Last(bits[1..], w - 1)
  }

  lemma {:induction false} RangeInSpace(bits: seq<bool>, w: nat)
    requires |bits| <= w
    ensures 0 <= First(bits, w) <= Last(bits, w) < Pow2(w)
  {
    if bits != [] { RangeInSpace(bits[1..], w - 1); }
  }

  /** Comparing first and last addresses, as the address library does, decides the same containment. */
  lemma {:induction false} ContainmentIsRangeInclusion(outer: seq<bool>, inner: seq<bool>, w: nat)
    requires |outer| <= w && |inner| <= w
    ensures outer <= inner <==> First(outer, w) <= First(inner, w) && Last(inner, w) <= Last(outer, w)
  {
    RangeInSpace(outer, w);
    RangeInSpace(inner, w);
    if outer == [] {
    } else if inner == [] {
      RangeInSpace(outer[1..], w - 1);
    } else {
      RangeInSpace(outer[1..], w - 1);
      RangeInSpace(inner[1..], w - 1);
      ContainmentIsRangeInclusion(outer[1..], inner[1..], w - 1);
      assert outer <= inner <==> outer[0] == inner[0] && outer[1..] <= inner[1..];
    }
  }

  // ----- Overlap means a shared address -----

  /** The lowest address of a valid network. */
  function LowestAddress(n: Net): (a: Address)
    requires Valid(n)
    ensures IsAddress(a) && In(a, n)
  {
    Address(n.family, n.bits + seq(Width(n.family) - |n.bits|, _ => false))
  }

  lemma OverlapIffSharedAddress(left: Net, right: Net)
    requires Valid(left) && Valid(right)
    ensures NetworksOverlap(left, right) <==> exists a :: IsAddress(a) && In(a, left) && In(a, right)
  {
    if Contains(left, right) {
      var a := LowestAddress(right);
      assert In(a, left);
    } else if Contains(right, left) {
      var a := LowestAddress(left);
      assert In(a, right);
    }
  }

  ghost predicate PairwiseDisjoint(nets: seq<Net>) {
    forall i, k | 0 <= i < k < |nets| :: !NetworksOverlap(nets[i], nets[k])
  }

  // ----- Subtraction -----

  const CANNOT_SUBDIVIDE := "source access policy prefix cannot be subdivided"

  function Child(n: Net, bit: bool): Net {
    Net(n.family, n.bits + [bit])
  }

  /** What is left of `allowed` without `denied`, in address order. */
  function Difference(allowed: Net, denied: Net): seq<Net>
    decreases |denied.bits| - |allowed.bits|
  {
    if Contains(denied, allowed) then []
    else if !Contains(allowed, denied) then [allowed]
    else Difference(Child(allowed, false), denied) + Difference(Child(allowed, true), denied)
  }

  /** The child that does not lead to `denied` is kept whole. */
  lemma OneChildSurvives(allowed: Net, denied: Net)
    requires Contains(allowed, denied) && !Contains(denied, allowed)
    ensures var b := denied.bits[|allowed.bits|];
      && Difference(Child(allowed, !b), denied) == [Child(allowed, !b)]
      && Contains(Child(allowed, b), denied)
  {
    var b := denied.bits[|allowed.bits|];
    assert Child(allowed, b).bits <= denied.bits;
    assert Child(allowed, !b).bits[|allowed.bits|] != denied.bits[|allowed.bits|];
  }

  /** Subtraction keeps exactly the addresses of `allowed` outside `denied`, in disjoint parts of known number. */
  lemma {:induction false} DifferenceExact(allowed: Net, denied: Net)
    requires Valid(allowed) && Valid(denied)
    ensures AllValid(Difference(allowed, denied))
    ensures forall a | IsAddress(a) :: InAny(a, Difference(allowed, denied)) <==> In(a, allowed) && !In(a, denied)
    ensures PairwiseDisjoint(Difference(allowed, denied))
    ensures forall n <- Difference(allowed, denied) :: Contains(allowed, n)
    ensures |Difference(allowed, denied)| ==
      if Contains(denied, allowed) then 0
      else if Contains(allowed, denied) then |denied.bits| - |allowed.bits| else 1
    decreases |denied.bits| - |allowed.bits|
  {
    if Contains(denied, allowed) {
    } else if !Contains(allowed, denied) {
      OverlapIffSharedAddress(allowed, denied);
    } else {
      var b := denied.bits[|allowed.bits|];
      var inner, kept := Child(allowed, b), Child(allowed, !b);
      OneChildSurvives(allowed, denied);
      DifferenceExact(inner, denied);
      var rest := Difference(inner, denied);
      assert Difference(allowed, denied) == if b then [kept] + rest else rest + [kept];
      forall a | IsAddress(a)
        ensures InAny(a, Difference(allowed, denied)) <==> In(a, allowed) && !In(a, denied)
      {
        SplitByChild(a, allowed, b);
        assert In(a, denied) ==> In(a, inner);
        assert InAny(a, Difference(allowed, denied)) <==> In(a, kept) || InAny(a, rest);
      }
      forall n <- rest ensures !NetworksOverlap(kept, n) && Contains(allowed, n) {
        assert inner.bits <= n.bits && n.bits[|allowed.bits|] == b;
      }
      var parts := Difference(allowed, denied);
      forall i, k | 0 <= i < k < |parts| ensures !NetworksOverlap(parts[i], parts[k]) {
        if b && i > 0 { assert parts[i] == rest[i - 1] && parts[k] == rest[k - 1]; }
        else if b { assert parts[i] == kept && parts[k] == rest[k - 1] && rest[k - 1] in rest; }
        else if k < |rest| { assert parts[i] == rest[i] && parts[k] == rest[k]; }
        else { assert parts[k] == kept && parts[i] == rest[i] && rest[i] in rest; }
      }
    }
  }

  lemma SplitByChild(a: Address, n: Net, b: bool)
    requires IsAddress(a) && |n.bits| < Width(n.family)
    ensures In(a, n) <==> In(a, Child(n, b)) || In(a, Child(n, !b))
    ensures !(In(a, Child(n, b)) && In(a, Child(n, !b)))
  {
    var k := |n.bits|;
    forall c: bool ensures In(a, Child(n, c)) <==> In(a, n) && a.bits[k] == c {
      assert Child(n, c).bits[..k] == n.bits;
      if In(a, n) && a.bits[k] == c { assert a.bits[..k + 1] == n.bits + [c]; }
    }
  }

  /**
   * subtract_network, pushing to an output list. The subdivision error is reached only by a denied network
   * longer than its family allows.
   */
  method SubtractNetwork(allowed: Net, denied: Net, output: seq<Net>)
    returns (outcome: Result<(), string>, out: seq<Net>)
    ensures outcome.Ok? ==> out == output + Difference(allowed, denied)
    ensures outcome.Err? <==> Contains(allowed, denied) && !Contains(denied, allowed) && !Valid(denied)
    decreases |denied.bits| - |allowed.bits|
  {
    if Contains(denied, allowed) {
      return Ok(()), output;
    }
    if !Contains(allowed, denied) {
      return Ok(()), output + [allowed];
    }
    var childPrefix := |allowed.bits| + 1;
    if childPrefix > Width(allowed.family) {
      return Err(CANNOT_SUBDIVIDE), output;
    }
    OneChildSurvives(allowed, denied);
    outcome, out := SubtractNetwork(Child(allowed, false), denied, output);
    if outcome.Err? { return; }
    outcome, out := SubtractNetwork(Child(allowed, true), denied, out);
  }
}
