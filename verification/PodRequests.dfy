/** What a pod requests of its node, as it is and as the cache keeps it. */
module PodRequests {
  import opened Rounding
  import opened Shortfall
  import opened Sums
  import opened Wrappers

  /** An init container; a sidecar goes on running beside those that start after it. */
  datatype Init = Init(requests: Resources, sidecar: bool)

  /** A pod's containers in order, the runtime's overhead, and any requests set for the pod as a whole. */
  datatype Spec = Spec(containers: seq<Resources>, inits: seq<Init>, overhead: Resources,
                       cpu: Option<real>, memory: Option<real>)

  function Larger(a: real, b: real): real {
    if a > b then a else b
  }

  function Most(a: Resources, b: Resources): Resources {
    Resources(Larger(a.cpu, b.cpu), Larger(a.memory, b.memory))
  }

  function SumOf(containers: seq<Resources>): Resources {
    if containers == [] then ZERO else SumOf(containers[..|containers| - 1]).Add(containers[|containers| - 1])
  }

  function SidecarsOf(inits: seq<Init>): Resources {
    if inits == [] then ZERO
    else
      var last := inits[|inits| - 1];
      var before := SidecarsOf(inits[..|inits| - 1]);
      if last.sidecar then before.Add(last.requests) else before
  }

  /** The most any init container that isn't a sidecar needs, with the sidecars started before it. */
  function InitPeak(inits: seq<Init>): Resources {
    if inits == [] then ZERO
    else
      var last, before := inits[|inits| - 1], inits[..|inits| - 1];
      if last.sidecar then InitPeak(before) else Most(InitPeak(before), last.requests.Add(SidecarsOf(before)))
  }

  /** What the containers need, by all that runs at once or a step of startup if that's more. */
  function Total(spec: Spec): Resources {
    Most(SumOf(spec.containers).Add(SidecarsOf(spec.inits)), InitPeak(spec.inits))
  }

  function OverOwn(spec: Spec, total: Resources): Resources {
    Resources(if spec.cpu.Some? then spec.cpu.value else total.cpu,
              if spec.memory.Some? then spec.memory.value else total.memory)
  }

  /** Requests set for the pod as a whole stand in for its containers'. */
  function Requests(spec: Spec): (r: Resources)
    ensures spec.cpu.Some? ==> r.cpu == spec.cpu.value + spec.overhead.cpu
    ensures spec.memory.Some? ==> r.memory == spec.memory.value + spec.overhead.memory
  {
    OverOwn(spec, Total(spec)).Add(spec.overhead)
  }

  method Compute(spec: Spec) returns (requests: Resources)
    ensures requests == Requests(spec)
  {
    var containers, sidecars, initPeak := ZERO, ZERO, ZERO;
    for i := 0 to |spec.containers|
      invariant containers == SumOf(spec.containers[..i])
    {
      assert spec.containers[..i + 1][..i] == spec.containers[..i];
      containers := containers.Add(spec.containers[i]);
    }
    assert spec.containers[..|spec.containers|] == spec.containers;
    for i := 0 to |spec.inits|
      invariant sidecars == SidecarsOf(spec.inits[..i]) && initPeak == InitPeak(spec.inits[..i])
    {
      assert spec.inits[..i + 1][..i] == spec.inits[..i];
      var r := spec.inits[i].requests;
      if spec.inits[i].sidecar {
        sidecars := sidecars.Add(r);
        continue;
      }
      initPeak := Most(initPeak, r.Add(sidecars));
    }
    assert spec.inits[..|spec.inits|] == spec.inits;
    var total := Most(containers.Add(sidecars), initPeak);
    if spec.cpu.Some? {
      total := total.(cpu := spec.cpu.value);
    }
    if spec.memory.Some? {
      total := total.(memory := spec.memory.value);
    }
    requests := total.Add(spec.overhead);
  }

  // Pod startup

  /** What runs at a step of pod startup: each init container in turn, and then the containers, beside the sidecars. */
  function Running(spec: Spec, step: nat): Resources
    requires step <= |spec.inits|
  {
    if step < |spec.inits| then SidecarsOf(spec.inits[..step]).Add(spec.inits[step].requests)
    else SidecarsOf(spec.inits).Add(SumOf(spec.containers))
  }

  ghost function InDim(d: Dim): Resources -> real {
    (r: Resources) => r.Of(d)
  }

  ghost function Beside(d: Dim): Init -> real {
    (i: Init) => if i.sidecar then i.requests.Of(d) else 0.0
  }

  lemma {:induction false} SumsAdd(containers: seq<Resources>, inits: seq<Init>, d: Dim)
    ensures SumOf(containers).Of(d) == SeqSum(containers, InDim(d))
    ensures SidecarsOf(inits).Of(d) == SeqSum(inits, Beside(d))
    decreases |containers| + |inits|
  {
    if containers != [] {
      SumsAdd(containers[..|containers| - 1], inits, d);
    } else if inits != [] {
      SumsAdd(containers, inits[..|inits| - 1], d);
    }
  }

  /** Which is the step's own requests and those of all sidecars started before it. */
  lemma RunningIs(spec: Spec, step: nat, d: Dim)
    requires step <= |spec.inits|
    ensures Running(spec, step).Of(d) ==
              SeqSum(spec.inits[..step], Beside(d)) +
              if step < |spec.inits| then spec.inits[step].requests.Of(d) else SeqSum(spec.containers, InDim(d))
  {
    SumsAdd(spec.containers, spec.inits[..step], d);
    assert spec.inits[..|spec.inits|] == spec.inits;
  }

  ghost predicate NoneNegative(spec: Spec) {
    && (forall c, d: Dim :: c in spec.containers ==> c.Of(d) >= 0.0)
    && (forall c, d: Dim :: c in spec.inits ==> c.requests.Of(d) >= 0.0)
  }

  /** x is the most of a dimension that runs at any step of startup. */
  ghost predicate IsPeak(spec: Spec, d: Dim, x: real) {
    && (forall step: nat :: step <= |spec.inits| ==> Running(spec, step).Of(d) <= x)
    && (exists step: nat :: step <= |spec.inits| && Running(spec, step).Of(d) == x)
  }

  lemma {:induction false} SumIsNonNegative(containers: seq<Resources>, d: Dim)
    requires forall c, e: Dim :: c in containers ==> c.Of(e) >= 0.0
    ensures SumOf(containers).Of(d) >= 0.0
  {
    if containers != [] {
      SumIsNonNegative(containers[..|containers| - 1], d);
      assert containers[|containers| - 1].Of(d) >= 0.0;
    }
  }

  lemma {:induction false} SidecarsGrow(inits: seq<Init>, i: nat, d: Dim)
    requires i <= |inits| && forall c, e: Dim :: c in inits ==> c.requests.Of(e) >= 0.0
    ensures 0.0 <= SidecarsOf(inits[..i]).Of(d) <= SidecarsOf(inits).Of(d)
    decreases |inits|
  {
    if inits == [] || i == |inits| {
      assert inits[..i] == inits;
      if inits != [] {
        SidecarsGrow(inits[..|inits| - 1], 0, d);
        assert inits[|inits| - 1].requests.Of(d) >= 0.0;
      }
    } else {
      var last := |inits| - 1;
      SidecarsGrow(inits[..last], i, d);
      assert inits[..last][..i] == inits[..i];
      assert inits[last].requests.Of(d) >= 0.0;
    }
  }

  /** The peak of init containers that aren't sidecars: over each of them, and reached by one, or nothing. */
  lemma {:induction false} InitPeakMeans(inits: seq<Init>, d: Dim)
    ensures forall i :: 0 <= i < |inits| && !inits[i].sidecar ==>
              SidecarsOf(inits[..i]).Add(inits[i].requests).Of(d) <= InitPeak(inits).Of(d)
    ensures InitPeak(inits).Of(d) == 0.0 ||
            exists i :: 0 <= i < |inits| && SidecarsOf(inits[..i]).Add(inits[i].requests).Of(d) == InitPeak(inits).Of(d)
  {
    if inits != [] {
      var last, before := |inits| - 1, inits[..|inits| - 1];
      InitPeakMeans(before, d);
      forall i | 0 <= i < last
        ensures before[..i] == inits[..i] && before[i] == inits[i]
      {
      }
      if i :| 0 <= i < last && SidecarsOf(before[..i]).Add(before[i].requests).Of(d) == InitPeak(before).Of(d) {
        assert SidecarsOf(inits[..i]).Add(inits[i].requests).Of(d) == InitPeak(before).Of(d);
      }
      assert SidecarsOf(inits[..last]).Add(inits[last].requests).Of(d) ==
             inits[last].requests.Add(SidecarsOf(before)).Of(d);
    }
  }

  /** Without any set for the pod as a whole, it requests its overhead and the most that runs at a step of startup. */
  lemma RequestsArePeak(spec: Spec, d: Dim)
    requires NoneNegative(spec) && (if d.Cpu? then spec.cpu.None? else spec.memory.None?)
    ensures IsPeak(spec, d, Requests(spec).Of(d) - spec.overhead.Of(d))
  {
    var peak := Total(spec);
    assert Requests(spec).Of(d) - spec.overhead.Of(d) == peak.Of(d);
    InitPeakMeans(spec.inits, d);
    SumIsNonNegative(spec.containers, d);
    SidecarsGrow(spec.inits, 0, d);
    var last := |spec.inits|;
    assert Running(spec, last).Of(d) <= peak.Of(d);
    forall step: nat | step <= last
      ensures Running(spec, step).Of(d) <= peak.Of(d)
    {
      if step < last && spec.inits[step].sidecar {
        SidecarRuns(spec, step, d);
      }
    }
    if peak.Of(d) != Running(spec, last).Of(d) {
      var i :| 0 <= i < last
        && SidecarsOf(spec.inits[..i]).Add(spec.inits[i].requests).Of(d) == InitPeak(spec.inits).Of(d);
      assert Running(spec, i).Of(d) == peak.Of(d);
    }
  }

  /** A sidecar starting is part of what runs in the end. */
  lemma SidecarRuns(spec: Spec, step: nat, d: Dim)
    requires NoneNegative(spec) && step < |spec.inits| && spec.inits[step].sidecar
    ensures Running(spec, step).Of(d) <= Running(spec, |spec.inits|).Of(d)
  {
    SidecarsGrow(spec.inits, step + 1, d);
    SumIsNonNegative(spec.containers, d);
    assert spec.inits[..step + 1][..step] == spec.inits[..step];
  }

  // What the cache keeps

  function InUnits(r: Resources): Resources {
    Resources(Round(r.cpu * 1000.0) as real / 1000.0, Round(r.memory) as real)
  }

  /** A pod of one container with the requests, if it has any. */
  function OneOf(r: Resources, kept: Resources): Spec {
    Spec(if r.cpu > 0.0 || r.memory > 0.0 then [kept] else [], [], ZERO, None, None)
  }

  /** A pod's requests collapsed into one container's, in whole thousandths of a core and bytes. */
  function Trim(spec: Spec): Spec {
    OneOf(Requests(spec), InUnits(Requests(spec)))
  }

  ghost predicate IsWholeIn(r: Resources) {
    IsWhole(r.cpu * 1000.0) && IsWhole(r.memory)
  }

  /** Every request of the pod is in whole thousandths of a core and bytes, and none is negative. */
  ghost predicate Countable(spec: Spec) {
    && NoneNegative(spec) && spec.overhead.cpu >= 0.0 && spec.overhead.memory >= 0.0
    && (forall c :: c in spec.containers ==> IsWholeIn(c)) && (forall c :: c in spec.inits ==> IsWholeIn(c.requests))
    && IsWholeIn(spec.overhead)
    && (spec.cpu.Some? ==> spec.cpu.value >= 0.0 && IsWhole(spec.cpu.value * 1000.0))
    && (spec.memory.Some? ==> spec.memory.value >= 0.0 && IsWhole(spec.memory.value))
  }

  lemma AddIsWhole(a: Resources, b: Resources)
    requires IsWholeIn(a) && IsWholeIn(b)
    ensures IsWholeIn(a.Add(b)) && IsWholeIn(Most(a, b))
  {
    WholeAdds(a.cpu * 1000.0, b.cpu * 1000.0);
    WholeAdds(a.memory, b.memory);
    assert a.Add(b).cpu * 1000.0 == a.cpu * 1000.0 + b.cpu * 1000.0;
  }

  lemma {:induction false} SumIsWhole(containers: seq<Resources>)
    requires forall c :: c in containers ==> IsWholeIn(c)
    ensures IsWholeIn(SumOf(containers))
  {
    if containers != [] {
      SumIsWhole(containers[..|containers| - 1]);
      AddIsWhole(SumOf(containers[..|containers| - 1]), containers[|containers| - 1]);
    }
  }

  lemma {:induction false} InitsAreWhole(inits: seq<Init>)
    requires forall c :: c in inits ==> IsWholeIn(c.requests)
    ensures IsWholeIn(SidecarsOf(inits)) && IsWholeIn(InitPeak(inits))
  {
    if inits != [] {
      var before, r := inits[..|inits| - 1], inits[|inits| - 1].requests;
      InitsAreWhole(before);
      AddIsWhole(SidecarsOf(before), r);
      AddIsWhole(r, SidecarsOf(before));
      AddIsWhole(InitPeak(before), r.Add(SidecarsOf(before)));
    }
  }

  lemma TotalIsWhole(spec: Spec)
    requires Countable(spec)
    ensures IsWholeIn(Total(spec)) && Total(spec).cpu >= 0.0 && Total(spec).memory >= 0.0
  {
    SumIsWhole(spec.containers);
    InitsAreWhole(spec.inits);
    AddIsWhole(SumOf(spec.containers), SidecarsOf(spec.inits));
    AddIsWhole(SumOf(spec.containers).Add(SidecarsOf(spec.inits)), InitPeak(spec.inits));
    RunningIsNonNegative(spec);
  }

  lemma RequestsAreWhole(spec: Spec)
    requires Countable(spec)
    ensures IsWholeIn(Requests(spec)) && Requests(spec).cpu >= 0.0 && Requests(spec).memory >= 0.0
  {
    TotalIsWhole(spec);
    AddIsWhole(OverOwn(spec, Total(spec)), spec.overhead);
  }

  lemma RunningIsNonNegative(spec: Spec)
    requires NoneNegative(spec)
    ensures var running := SumOf(spec.containers).Add(SidecarsOf(spec.inits));
            running.cpu >= 0.0 && running.memory >= 0.0
  {
    SumIsNonNegative(spec.containers, Cpu);
    SumIsNonNegative(spec.containers, Memory);
    SidecarsGrow(spec.inits, 0, Cpu);
    SidecarsGrow(spec.inits, 0, Memory);
  }

  ghost predicate IsPlain(spec: Spec) {
    spec.inits == [] && spec.overhead == ZERO && spec.cpu.None? && spec.memory.None?
  }

  lemma PlainRequests(spec: Spec, r: Resources)
    requires IsPlain(spec) && r.cpu >= 0.0 && r.memory >= 0.0 && SumOf(spec.containers) == r
    ensures Requests(spec) == r
  {
  }

  lemma SumOfOne(containers: seq<Resources>, r: Resources)
    requires containers == [r]
    ensures SumOf(containers) == r
  {
  }

  lemma UnitsKeepWhole(r: Resources)
    requires IsWholeIn(r)
    ensures InUnits(r) == r
  {
    WholeRounds(r.cpu * 1000.0);
    WholeRounds(r.memory);
  }

  lemma OneOfRequests(r: Resources)
    requires r.cpu >= 0.0 && r.memory >= 0.0
    ensures Requests(OneOf(r, r)) == r
  {
    var spec := OneOf(r, r);
    if r.cpu > 0.0 || r.memory > 0.0 {
      SumOfOne(spec.containers, r);
    } else {
      assert SumOf(spec.containers) == ZERO;
    }
    PlainRequests(spec, r);
  }

  /** What the cache keeps of a pod requests what the pod does. */
  lemma TrimKeepsRequests(spec: Spec)
    requires Countable(spec)
    ensures Requests(Trim(spec)) == Requests(spec)
  {
    RequestsAreWhole(spec);
    UnitsKeepWhole(Requests(spec));
    OneOfRequests(Requests(spec));
  }
}
