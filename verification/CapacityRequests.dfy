/** Effective resource requests of a Pod: what runs at once over its whole startup. */
module CapacityRequests {
  /** Amounts by resource name, each resource in its own smallest unit. */
  type Resources = map<string, nat>

  datatype Container = Container(requests: Resources, restartAlways: bool)
  datatype PodSpec = PodSpec(containers: seq<Container>, inits: seq<Container>, overhead: Resources)

  function Get(m: Resources, k: string): nat {
    if k in m then m[k] else 0
  }

  function Plus(a: Resources, b: Resources): Resources {
    map k | k in a.Keys + b.Keys :: Get(a, k) + Get(b, k)
  }

  function Largest(a: Resources, b: Resources): Resources {
    map k | k in a.Keys + b.Keys :: var x, y := Get(a, k), Get(b, k); if x < y then y else x
  }

  // ----- The startup timeline -----

  /** What all the given containers request of one resource. */
  function Sum(containers: seq<Container>, k: string): nat
    decreases |containers|
  {
    if containers == [] then 0
    else Sum(containers[..|containers| - 1], k) + Get(containers[|containers| - 1].requests, k)
  }

  /** What the sidecars among the given init containers request: those that keep running once started. */
  function Sidecars(inits: seq<Container>, k: string): nat
    decreases |inits|
  {
    if inits == [] then 0 else
    var last := inits[|inits| - 1];
    Sidecars(inits[..|inits| - 1], k) + (if last.restartAlways then Get(last.requests, k) else 0)
  }

  /** Load at stage `i`: init container `i` beside the sidecars before it; the last stage runs everything else. */
  function Load(pod: PodSpec, i: nat, k: string): nat
    requires i <= |pod.inits|
  {
    if i < |pod.inits| then Sidecars(pod.inits[..i], k) + Get(pod.inits[i].requests, k)
    else Sum(pod.containers, k) + Sidecars(pod.inits, k)
  }

  ghost predicate IsPeak(pod: PodSpec, k: string, peak: nat) {
    && (forall i :: 0 <= i <= |pod.inits| ==> Load(pod, i, k) <= peak)
    && (exists i :: 0 <= i <= |pod.inits| && Load(pod, i, k) == peak)
  }

  ghost predicate Mentions(containers: seq<Container>, k: string) {
    exists c :: c in containers && k in c.requests
  }

  // ----- The computation -----

  /** The largest of the init stages so far is never exceeded, and is reached by one of them unless it is zero. */
  ghost predicate InitPeak(inits: seq<Container>, k: string, peak: nat) {
    && (forall i :: 0 <= i < |inits| ==> Sidecars(inits[..i], k) + Get(inits[i].requests, k) <= peak)
    && (peak == 0 || exists i :: 0 <= i < |inits| && Sidecars(inits[..i], k) + Get(inits[i].requests, k) == peak)
  }

  lemma InitPeakExtends(inits: seq<Container>, c: Container, k: string, peak: nat)
    requires InitPeak(inits, k, peak)
    ensures var load := Sidecars(inits, k) + Get(c.requests, k);
      InitPeak(inits + [c], k, if peak < load then load else peak)
  {
    var all := inits + [c];
    var load := Sidecars(inits, k) + Get(c.requests, k);
    assert all[..|inits|] == inits && all[|inits|] == c;
    forall i | 0 <= i < |inits| ensures all[..i] == inits[..i] && all[i] == inits[i] {
    }
    if peak < load {
      assert Sidecars(all[..|inits|], k) + Get(all[|inits|].requests, k) == load;
    } else if peak != 0 {
      var i :| 0 <= i < |inits| && Sidecars(inits[..i], k) + Get(inits[i].requests, k) == peak;
      assert Sidecars(all[..i], k) + Get(all[i].requests, k) == peak;
    }
  }

  ghost predicate Tracks(m: Resources, containers: seq<Container>) {
    forall k :: (k in m <==> Mentions(containers, k)) && Get(m, k) == Sum(containers, k)
  }

  ghost predicate TracksSidecars(m: Resources, inits: seq<Container>) {
    forall k :: (k in m ==> Mentions(inits, k)) && Get(m, k) == Sidecars(inits, k)
  }

  ghost predicate TracksInit(m: Resources, inits: seq<Container>) {
    forall k :: (k in m <==> Mentions(inits, k)) && InitPeak(inits, k, Get(m, k))
  }

  lemma MentionsExtend(containers: seq<Container>, c: Container, k: string)
    ensures Mentions(containers + [c], k) <==> Mentions(containers, k) || k in c.requests
  {
    assert c in containers + [c];
    assert forall x :: x in containers + [c] <==> x in containers || x == c;
  }

  method SumContainers(containers: seq<Container>) returns (total: Resources)
    ensures Tracks(total, containers)
  {
    total := map[];
    for n := 0 to |containers|
      invariant Tracks(total, containers[..n])
    {
      var c := containers[n];
      assert containers[..n + 1] == containers[..n] + [c];
      forall k ensures Mentions(containers[..n + 1], k) <==> Mentions(containers[..n], k) || k in c.requests {
        MentionsExtend(containers[..n], c, k);
      }
      total := Plus(total, c.requests);
    }
    assert containers[..|containers|] == containers;
  }

  method ScanInits(inits: seq<Container>) returns (init: Resources, sidecars: Resources)
    ensures TracksInit(init, inits) && TracksSidecars(sidecars, inits)
  {
    init, sidecars := map[], map[];
    for n := 0 to |inits|
      invariant TracksInit(init, inits[..n]) && TracksSidecars(sidecars, inits[..n])
    {
      var c := inits[n];
      assert inits[..n + 1] == inits[..n] + [c];
      ghost var before := sidecars;
      if c.restartAlways {
        sidecars := Plus(sidecars, c.requests);
      }
      // a sidecar's own request is already among the sidecars
      var load := if c.restartAlways then sidecars else Plus(c.requests, sidecars);
      InitStep(init, before, load, inits[..n], c);
      init := Largest(init, load);
      SidecarStep(before, inits[..n], c);
    }
    assert inits[..|inits|] == inits;
  }

  lemma SidecarStep(sidecars: Resources, inits: seq<Container>, c: Container)
    requires TracksSidecars(sidecars, inits)
    ensures TracksSidecars(if c.restartAlways then Plus(sidecars, c.requests) else sidecars, inits + [c])
  {
    assert (inits + [c])[..|inits|] == inits;
    forall k ensures Mentions(inits + [c], k) <==> Mentions(inits, k) || k in c.requests {
      MentionsExtend(inits, c, k);
    }
  }

  lemma InitStep(init: Resources, sidecars: Resources, load: Resources, inits: seq<Container>, c: Container)
    requires TracksInit(init, inits) && TracksSidecars(sidecars, inits)
    requires load == if c.restartAlways then Plus(sidecars, c.requests) else Plus(c.requests, sidecars)
    ensures TracksInit(Largest(init, load), inits + [c])
  {
    var after := Largest(init, load);
    forall k ensures (k in after <==> Mentions(inits + [c], k)) && InitPeak(inits + [c], k, Get(after, k)) {
      MentionsExtend(inits, c, k);
      assert Get(load, k) == Sidecars(inits, k) + Get(c.requests, k);
      InitPeakExtends(inits, c, k, Get(init, k));
    }
  }

  function Combine(regular: Resources, init: Resources, sidecars: Resources, overhead: Resources): Resources {
    Plus(Largest(Plus(regular, sidecars), init), overhead)
  }

  lemma CombinedKey(pod: PodSpec, regular: Resources, init: Resources, sidecars: Resources, k: string)
    requires k in regular <==> Mentions(pod.containers, k)
    requires k in init <==> Mentions(pod.inits, k)
    requires k in sidecars ==> Mentions(pod.inits, k)
    ensures k in Combine(regular, init, sidecars, pod.overhead) <==>
      Mentions(pod.containers, k) || Mentions(pod.inits, k) || k in pod.overhead
  {
  }

  lemma CombinedPeak(pod: PodSpec, regular: Resources, init: Resources, sidecars: Resources, k: string)
    requires Get(regular, k) == Sum(pod.containers, k) && Get(sidecars, k) == Sidecars(pod.inits, k)
    requires InitPeak(pod.inits, k, Get(init, k))
    ensures var total := Combine(regular, init, sidecars, pod.overhead);
      Get(total, k) >= Get(pod.overhead, k) && IsPeak(pod, k, Get(total, k) - Get(pod.overhead, k))
  {
    PeakOfStages(pod, k, Get(init, k));
    var both := Plus(regular, sidecars);
    assert Get(both, k) == Load(pod, |pod.inits|, k);
    var peak := Largest(both, init);
    assert Get(peak, k) == if Get(both, k) < Get(init, k) then Get(init, k) else Get(both, k);
    assert Get(Plus(peak, pod.overhead), k) == Get(peak, k) + Get(pod.overhead, k);
  }

  /** Per resource: the peak over the startup timeline, plus the runtime overhead. */
  method ComputeRequests(pod: PodSpec) returns (total: Resources)
    ensures forall k ::
      k in total <==> Mentions(pod.containers, k) || Mentions(pod.inits, k) || k in pod.overhead
    ensures forall k :: Get(total, k) >= Get(pod.overhead, k)
    ensures forall k :: IsPeak(pod, k, Get(total, k) - Get(pod.overhead, k))
  {
    var regular := SumContainers(pod.containers);
    var init, sidecars := ScanInits(pod.inits);
    total := Combine(regular, init, sidecars, pod.overhead);
    forall k
      ensures k in total <==> Mentions(pod.containers, k) || Mentions(pod.inits, k) || k in pod.overhead
    {
      CombinedKey(pod, regular, init, sidecars, k);
    }
    forall k
      ensures Get(total, k) >= Get(pod.overhead, k) && IsPeak(pod, k, Get(total, k) - Get(pod.overhead, k))
    {
      CombinedPeak(pod, regular, init, sidecars, k);
    }
  }

  lemma PeakOfStages(pod: PodSpec, k: string, init: nat)
    requires InitPeak(pod.inits, k, init)
    ensures var final := Load(pod, |pod.inits|, k);
      IsPeak(pod, k, if final < init then init else final)
  {
    var n := |pod.inits|;
    forall i | 0 <= i < n ensures Load(pod, i, k) == Sidecars(pod.inits[..i], k) + Get(pod.inits[i].requests, k) {
    }
    var final := Load(pod, n, k);
    if final < init {
      var i :| 0 <= i < n && Sidecars(pod.inits[..i], k) + Get(pod.inits[i].requests, k) == init;
      assert Load(pod, i, k) == init;
    }
  }
}
