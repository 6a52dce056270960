/** What workloads hold paused, split over the node pools their pods ran in. */
module HeldPaused {
  import opened Placements
  import opened Shortfall
  import opened Sums
  import opened Workloads
  import opened Wrappers

  datatype Pause = Pause(resources: Option<Snapshot>, pausedAt: Option<int>)

  datatype Workload = Workload(uid: Uid, paused: bool, dryRun: bool, ours: bool, pause: Option<Pause>)

  function TotalOf(rs: Snapshot): Resources {
    var replicas := rs.replicas as real;
    Resources(replicas * rs.cpuMillis as real / 1000.0, replicas * rs.memoryBytes as real)
  }

  predicate Counts(w: Workload) {
    && w.paused && !w.dryRun && w.ours && w.pause.Some?
    && w.pause.value.resources.Some? && w.pause.value.pausedAt.Some?
    && var total := TotalOf(w.pause.value.resources.value); total.cpu > 0.0 || total.memory > 0.0
  }

  function PodsIn(pools: seq<NodePool>): nat {
    if pools == [] then 0
    else PodsIn(pools[..|pools| - 1]) + if pools[|pools| - 1].pods > 0 then pools[|pools| - 1].pods else 0
  }

  function Fraction(pods: int, all: nat): real
    requires all > 0
  {
    pods as real / all as real
  }

  /** A total's part for so many of its pods. */
  function ForPods(total: Resources, all: nat): int -> Resources
    requires all > 0
  {
    (pods: int) => Resources(total.cpu * Fraction(pods, all), total.memory * Fraction(pods, all))
  }

  /** An entry for each pool that had pods, with their part. */
  function SplitOver(uid: Uid, pools: seq<NodePool>, part: int -> Resources): seq<Held> {
    if pools == [] then []
    else
      var np := pools[|pools| - 1];
      SplitOver(uid, pools[..|pools| - 1], part)
      + if np.pods > 0 then [Held(uid, Named(np.name), part(np.pods))] else []
  }

  function Split(w: Workload): seq<Held> {
    if !Counts(w) then []
    else
      var rs := w.pause.value.resources.value;
      if PodsIn(rs.nodePools) == 0 then [Held(w.uid, AnyPool, TotalOf(rs))]
      else SplitOver(w.uid, rs.nodePools, ForPods(TotalOf(rs), PodsIn(rs.nodePools)))
  }

  function Splits(workloads: seq<Workload>): seq<Held> {
    if workloads == [] then [] else Splits(workloads[..|workloads| - 1]) + Split(workloads[|workloads| - 1])
  }

  method CountPods(pools: seq<NodePool>) returns (pods: nat)
    ensures pods == PodsIn(pools)
  {
    pods := 0;
    for i := 0 to |pools|
      invariant pods == PodsIn(pools[..i])
    {
      assert pools[..i + 1][..i] == pools[..i];
      if pools[i].pods > 0 {
        pods := pods + pools[i].pods;
      }
    }
    assert pools[..|pools|] == pools;
  }

  method SplitByPods(uid: Uid, total: Resources, pools: seq<NodePool>, pods: nat) returns (out: seq<Held>)
    requires pods > 0
    ensures out == SplitOver(uid, pools, ForPods(total, pods))
  {
    out := [];
    for i := 0 to |pools|
      invariant out == SplitOver(uid, pools[..i], ForPods(total, pods))
    {
      assert pools[..i + 1][..i] == pools[..i];
      if pools[i].pods > 0 {
        out := out + [Held(uid, Named(pools[i].name), ForPods(total, pods)(pools[i].pods))];
      }
    }
    assert pools[..|pools|] == pools;
  }

  /** What each workload held paused requests of node pools, and when each was paused. */
  method FindHeld(workloads: seq<Workload>) returns (out: seq<Held>, pausedAt: map<Uid, int>)
    ensures out == Splits(workloads)
    ensures forall u :: u in pausedAt ==>
              exists w :: w in workloads && Counts(w) && w.uid == u && w.pause.value.pausedAt == Some(pausedAt[u])
    ensures forall w :: w in workloads && Counts(w) ==> w.uid in pausedAt
  {
    out, pausedAt := [], map[];
    for i := 0 to |workloads|
      invariant out == Splits(workloads[..i])
      invariant forall u :: u in pausedAt ==>
                  exists w :: w in workloads && Counts(w) && w.uid == u && w.pause.value.pausedAt == Some(pausedAt[u])
      invariant forall w :: w in workloads[..i] && Counts(w) ==> w.uid in pausedAt
    {
      var w := workloads[i];
      assert workloads[..i + 1] == workloads[..i] + [w];
      if Counts(w) {
        var rs := w.pause.value.resources.value;
        pausedAt := pausedAt[w.uid := w.pause.value.pausedAt.value];
        var pods := CountPods(rs.nodePools);
        if pods == 0 {
          out := out + [Held(w.uid, AnyPool, TotalOf(rs))];
        } else {
          var split := SplitByPods(w.uid, TotalOf(rs), rs.nodePools, pods);
          out := out + split;
        }
      }
    }
    assert workloads[..|workloads|] == workloads;
  }

  // What it comes to

  lemma HeldOfOne(h: Held, d: Dim)
    ensures HeldIn([h], d)(h.workload) == h.res.Of(d)
  {
    assert [h][..0] == [];
    assert KeyedSum([h][..0], WorkloadOf, h.workload, InDim(d)) == 0.0;
  }

  lemma HeldOfBoth(a: seq<Held>, b: seq<Held>, d: Dim, u: Uid)
    ensures HeldIn(a + b, d)(u) == HeldIn(a, d)(u) + HeldIn(b, d)(u)
  {
    KeyedSumJoins(a, b, WorkloadOf, u, InDim(d));
  }

  ghost predicate AdditiveIn(part: int -> Resources, d: Dim) {
    part(0).Of(d) == 0.0 && forall a, b :: AddsAt(part, d, a, b)
  }

  ghost predicate AddsAt(part: int -> Resources, d: Dim, a: int, b: int) {
    part(a + b).Of(d) == part(a).Of(d) + part(b).Of(d)
  }

  lemma ForPodsAdds(total: Resources, a: int, b: int, all: nat, d: Dim)
    requires all > 0
    ensures ForPods(total, all)(a + b).Of(d) == ForPods(total, all)(a).Of(d) + ForPods(total, all)(b).Of(d)
  {
  }

  lemma ForPodsIsAdditive(total: Resources, all: nat, d: Dim)
    requires all > 0
    ensures AdditiveIn(ForPods(total, all), d)
  {
    forall a, b
      ensures AddsAt(ForPods(total, all), d, a, b)
    {
      ForPodsAdds(total, a, b, all, d);
    }
  }

  lemma ForAllPods(total: Resources, all: nat, d: Dim)
    requires all > 0
    ensures ForPods(total, all)(all).Of(d) == total.Of(d)
  {
  }

  lemma {:induction false} SplitOverSums(uid: Uid, pools: seq<NodePool>, d: Dim, part: int -> Resources)
    requires AdditiveIn(part, d)
    ensures HeldIn(SplitOver(uid, pools, part), d)(uid) == part(PodsIn(pools)).Of(d)
    ensures forall h :: h in SplitOver(uid, pools, part) ==> h.workload == uid
  {
    if pools != [] {
      var last := |pools| - 1;
      var np, before := pools[last], SplitOver(uid, pools[..last], part);
      SplitOverSums(uid, pools[..last], d, part);
      if np.pods > 0 {
        var h := Held(uid, Named(np.name), part(np.pods));
        assert SplitOver(uid, pools, part) == before + [h];
        HeldOfBoth(before, [h], d, uid);
        HeldOfOne(h, d);
        assert AddsAt(part, d, PodsIn(pools[..last]), np.pods);
      } else {
        assert SplitOver(uid, pools, part) == before;
      }
    }
  }

  /** A workload's split by pods sums to all it holds paused. */
  lemma SplitSumsToTotal(w: Workload, d: Dim)
    requires Counts(w)
    ensures HeldIn(Split(w), d)(w.uid) == TotalOf(w.pause.value.resources.value).Of(d)
    ensures forall h :: h in Split(w) ==> h.workload == w.uid
  {
    var rs := w.pause.value.resources.value;
    var total, pods := TotalOf(rs), PodsIn(rs.nodePools);
    if pods > 0 {
      ForPodsIsAdditive(total, pods, d);
      SplitOverSums(w.uid, rs.nodePools, d, ForPods(total, pods));
      ForAllPods(total, pods, d);
    } else {
      HeldOfOne(Held(w.uid, AnyPool, total), d);
    }
  }

  ghost predicate Distinct(workloads: seq<Workload>) {
    forall i, j :: 0 <= i < j < |workloads| ==> workloads[i].uid != workloads[j].uid
  }

  /** So what's found of a workload is all it holds paused, whatever else is found. */
  lemma {:induction false} FoundSumsToTotal(workloads: seq<Workload>, i: nat, d: Dim)
    requires Distinct(workloads) && i < |workloads|
    ensures HeldIn(Splits(workloads), d)(workloads[i].uid) ==
              if Counts(workloads[i]) then TotalOf(workloads[i].pause.value.resources.value).Of(d) else 0.0
  {
    var last := |workloads| - 1;
    var before, own, uid := Splits(workloads[..last]), Split(workloads[last]), workloads[i].uid;
    SplitIsOwn(workloads[last]);
    HeldOfBoth(before, own, d, uid);
    if i < last {
      FoundSumsToTotal(workloads[..last], i, d);
      NoneOfWorkload(own, uid, InDim(d));
    } else {
      SplitsAreOf(workloads[..last]);
      NoneOfWorkload(before, uid, InDim(d));
      if Counts(workloads[i]) {
        SplitSumsToTotal(workloads[i], d);
      }
    }
  }

  lemma SplitIsOwn(w: Workload)
    ensures forall h :: h in Split(w) ==> h.workload == w.uid
  {
    if Counts(w) {
      SplitSumsToTotal(w, Cpu);
    }
  }

  lemma {:induction false} SplitsAreOf(workloads: seq<Workload>)
    ensures forall h :: h in Splits(workloads) ==> exists w :: w in workloads && Counts(w) && w.uid == h.workload
  {
    if workloads != [] {
      SplitsAreOf(workloads[..|workloads| - 1]);
      SplitIsOwn(workloads[|workloads| - 1]);
    }
  }

  // In which pools

  function NameOf(np: NodePool): string {
    np.name
  }

  /** The pods recorded of a pool: none of a count that isn't positive. */
  function PodsOf(np: NodePool): real {
    if np.pods > 0 then np.pods as real else 0.0
  }

  /** Paused by this install and out of dry-run, and recorded to have requested something. */
  predicate IsHeld(w: Workload) {
    && w.paused && !w.dryRun && w.ours
    && w.pause.Some? && w.pause.value.resources.Some? && w.pause.value.pausedAt.Some?
    && var rs := w.pause.value.resources.value; rs.replicas > 0 && (rs.cpuMillis > 0 || rs.memoryBytes > 0)
  }

  /** Cores, or bytes. */
  function Requested(rs: Snapshot, d: Dim): real {
    if d.Cpu? then rs.replicas as real * rs.cpuMillis as real / 1000.0 else rs.replicas as real * rs.memoryBytes as real
  }

  /** The part of an amount in a pool: by how many of the pods ran there, or in no known pool if none is recorded. */
  ghost function PartHeld(amount: real, pools: seq<NodePool>, pool: Pool): real {
    var all := SeqSum(pools, PodsOf);
    if all <= 0.0 then if pool == AnyPool then amount else 0.0
    else if pool == AnyPool then 0.0
    else amount * (KeyedSum(pools, NameOf, pool.name, PodsOf) / all)
  }

  /** What a workload holds paused in a pool. */
  ghost function HeldBy(pool: Pool, d: Dim): Workload -> real {
    (w: Workload) =>
      if IsHeld(w) then
        PartHeld(Requested(w.pause.value.resources.value, d), w.pause.value.resources.value.nodePools, pool)
      else 0.0
  }

  function NamedPods(pools: seq<NodePool>, name: string): nat {
    if pools == [] then 0
    else
      var last := pools[|pools| - 1];
      NamedPods(pools[..|pools| - 1], name) + if last.name == name && last.pods > 0 then last.pods else 0
  }

  lemma {:induction false} PodsAreCounted(pools: seq<NodePool>, name: string)
    ensures PodsIn(pools) as real == SeqSum(pools, PodsOf)
    ensures NamedPods(pools, name) as real == KeyedSum(pools, NameOf, name, PodsOf)
  {
    if pools != [] {
      PodsAreCounted(pools[..|pools| - 1], name);
    }
  }

  lemma {:induction false} SplitOverByPool(uid: Uid, pools: seq<NodePool>, d: Dim, part: int -> Resources, name: string)
    requires AdditiveIn(part, d)
    ensures Pooled(SplitOver(uid, pools, part), d)(Named(name)) == part(NamedPods(pools, name)).Of(d)
    ensures Pooled(SplitOver(uid, pools, part), d)(AnyPool) == 0.0
  {
    if pools != [] {
      var last := |pools| - 1;
      var np, before := pools[last], SplitOver(uid, pools[..last], part);
      SplitOverByPool(uid, pools[..last], d, part, name);
      if np.pods > 0 {
        var h := Held(uid, Named(np.name), part(np.pods));
        assert SplitOver(uid, pools, part) == before + [h];
        PooledGrows(before, h, d, Named(name));
        PooledGrows(before, h, d, AnyPool);
        assert AddsAt(part, d, NamedPods(pools[..last], name), np.pods);
      } else {
        assert SplitOver(uid, pools, part) == before;
      }
    }
  }

  lemma ProductIsPositive(a: nat, b: nat)
    ensures a as real * b as real > 0.0 <==> a > 0 && b > 0
  {
  }

  lemma HeldIsCounted(w: Workload)
    ensures Counts(w) <==> IsHeld(w)
  {
    if w.pause.Some? && w.pause.value.resources.Some? {
      var rs := w.pause.value.resources.value;
      ProductIsPositive(rs.replicas, rs.cpuMillis);
      ProductIsPositive(rs.replicas, rs.memoryBytes);
    }
  }

  lemma NamedPart(total: Resources, pools: seq<NodePool>, d: Dim, name: string)
    requires PodsIn(pools) > 0
    ensures ForPods(total, PodsIn(pools))(NamedPods(pools, name)).Of(d) == PartHeld(total.Of(d), pools, Named(name))
    ensures PartHeld(total.Of(d), pools, AnyPool) == 0.0
  {
    PodsAreCounted(pools, name);
  }

  lemma SplitOfPods(w: Workload, d: Dim, pool: Pool)
    requires Counts(w) && PodsIn(w.pause.value.resources.value.nodePools) > 0
    ensures var rs := w.pause.value.resources.value;
            Pooled(Split(w), d)(pool) == PartHeld(TotalOf(rs).Of(d), rs.nodePools, pool)
  {
    var rs := w.pause.value.resources.value;
    var total, pods := TotalOf(rs), PodsIn(rs.nodePools);
    var name := if pool == AnyPool then "" else pool.name;
    ForPodsIsAdditive(total, pods, d);
    SplitOverByPool(w.uid, rs.nodePools, d, ForPods(total, pods), name);
    NamedPart(total, rs.nodePools, d, name);
  }

  lemma SplitOfNone(w: Workload, d: Dim, pool: Pool)
    requires Counts(w) && PodsIn(w.pause.value.resources.value.nodePools) == 0
    ensures var rs := w.pause.value.resources.value;
            Pooled(Split(w), d)(pool) == PartHeld(TotalOf(rs).Of(d), rs.nodePools, pool)
  {
    var rs := w.pause.value.resources.value;
    PodsAreCounted(rs.nodePools, "");
    PooledGrows([], Held(w.uid, AnyPool, TotalOf(rs)), d, pool);
    assert [] + [Held(w.uid, AnyPool, TotalOf(rs))] == Split(w);
  }

  lemma SplitByPool(w: Workload, d: Dim, pool: Pool)
    ensures Pooled(Split(w), d)(pool) == HeldBy(pool, d)(w)
  {
    HeldIsCounted(w);
    if Counts(w) {
      if PodsIn(w.pause.value.resources.value.nodePools) > 0 {
        SplitOfPods(w, d, pool);
      } else {
        SplitOfNone(w, d, pool);
      }
    }
  }

  /** What's found for each pool is what the paused workloads hold there, by the pods recorded of it. */
  lemma {:induction false} FoundByPool(workloads: seq<Workload>, d: Dim, pool: Pool)
    ensures Pooled(Splits(workloads), d)(pool) == SeqSum(workloads, HeldBy(pool, d))
  {
    if workloads != [] {
      var last := |workloads| - 1;
      FoundByPool(workloads[..last], d, pool);
      SplitByPool(workloads[last], d, pool);
      KeyedSumJoins(Splits(workloads[..last]), Split(workloads[last]), PoolOf, pool, InDim(d));
    }
  }

  /** The pools there are, and those paused workloads' pods ran in. */
  ghost function KnownPools(workloads: seq<Workload>, spare: map<Pool, Resources>): set<Pool> {
    Pools(Splits(workloads), spare) - {AnyPool}
  }

  ghost function HeldInPool(workloads: seq<Workload>, d: Dim): Pool -> real {
    (p: Pool) => SeqSum(workloads, HeldBy(p, d))
  }

  lemma {:induction false} SplitOverNonNegative(uid: Uid, pools: seq<NodePool>, part: int -> Resources)
    requires forall k: int, d: Dim :: k > 0 ==> part(k).Of(d) >= 0.0
    ensures forall h, d: Dim :: h in SplitOver(uid, pools, part) ==> h.res.Of(d) >= 0.0
  {
    if pools != [] {
      SplitOverNonNegative(uid, pools[..|pools| - 1], part);
    }
  }

  lemma ForPodsNonNegative(total: Resources, all: nat)
    requires all > 0 && total.cpu >= 0.0 && total.memory >= 0.0
    ensures forall k: int, d: Dim :: k > 0 ==> ForPods(total, all)(k).Of(d) >= 0.0
  {
  }

  lemma {:induction false} FoundIsNonNegative(workloads: seq<Workload>)
    ensures forall h, d: Dim :: h in Splits(workloads) ==> h.res.Of(d) >= 0.0
  {
    if workloads != [] {
      var w := workloads[|workloads| - 1];
      FoundIsNonNegative(workloads[..|workloads| - 1]);
      if Counts(w) {
        var rs := w.pause.value.resources.value;
        assert TotalOf(rs).cpu >= 0.0 && TotalOf(rs).memory >= 0.0;
        if PodsIn(rs.nodePools) > 0 {
          ForPodsNonNegative(TotalOf(rs), PodsIn(rs.nodePools));
          SplitOverNonNegative(w.uid, rs.nodePools, ForPods(TotalOf(rs), PodsIn(rs.nodePools)));
        }
      }
    }
  }

  /** A workload's share of the shortfalls is at most all it holds paused. */
  lemma ShareIsWithinTotal(workloads: seq<Workload>, spare: map<Pool, Resources>, i: nat, d: Dim)
    requires Distinct(workloads) && i < |workloads| && Counts(workloads[i])
    requires forall p, e: Dim :: p in spare ==> spare[p].Of(e) >= 0.0
    ensures 0.0 <= ShareIn(Splits(workloads), spare, d)(workloads[i].uid)
                <= TotalOf(workloads[i].pause.value.resources.value).Of(d)
  {
    FoundIsNonNegative(workloads);
    ShareIsWithinHeld(Splits(workloads), spare, d, workloads[i].uid);
    FoundSumsToTotal(workloads, i, d);
  }

  lemma FoundNeeds(workloads: seq<Workload>, spare: map<Pool, Resources>, d: Dim, place: Pool -> real, added: real)
    ensures Needed(KnownPools(workloads, spare), HeldInPool(workloads, d), SpareIn(spare, d), place, added)
            == Needed(KnownPools(workloads, spare), Pooled(Splits(workloads), d), SpareIn(spare, d), place, added)
  {
    forall p: Pool
      ensures HeldInPool(workloads, d)(p) == Pooled(Splits(workloads), d)(p)
    {
      FoundByPool(workloads, d, p);
    }
    NeededSame(KnownPools(workloads, spare), HeldInPool(workloads, d), Pooled(Splits(workloads), d), SpareIn(spare, d),
               place, added);
  }

  /**
   * So the shortfalls of what's found sum to the least capacity that holding all that's paused would add, over every
   * placement that keeps each recorded pod's part in the pool it ran in, and puts anywhere what has none recorded.
   */
  lemma ShortfallKeepsPodsInTheirPools(workloads: seq<Workload>, spare: map<Pool, Resources>, d: Dim,
                                       place: Pool -> real, added: real)
    requires forall p, e: Dim :: p in spare ==> spare[p].Of(e) >= 0.0
    requires IsPlacement(KnownPools(workloads, spare), HeldInPool(workloads, d)(AnyPool), place, added)
    ensures Needed(KnownPools(workloads, spare), HeldInPool(workloads, d), SpareIn(spare, d), place, added)
            >= AllShort(Splits(workloads), spare, d)
  {
    FoundIsNonNegative(workloads);
    FoundByPool(workloads, d, AnyPool);
    FoundNeeds(workloads, spare, d, place, added);
    ShortfallIsLeast(Splits(workloads), spare, d, place, added);
  }

  /** And some such placement adds no more. */
  lemma SomeKeepsThemForThat(workloads: seq<Workload>, spare: map<Pool, Resources>, d: Dim)
    returns (place: Pool -> real, added: real)
    requires forall p, e: Dim :: p in spare ==> spare[p].Of(e) >= 0.0
    ensures IsPlacement(KnownPools(workloads, spare), HeldInPool(workloads, d)(AnyPool), place, added)
    ensures Needed(KnownPools(workloads, spare), HeldInPool(workloads, d), SpareIn(spare, d), place, added)
            == AllShort(Splits(workloads), spare, d)
  {
    FoundIsNonNegative(workloads);
    FoundByPool(workloads, d, AnyPool);
    place, added := ShortfallIsAttained(Splits(workloads), spare, d);
    FoundNeeds(workloads, spare, d, place, added);
  }
}
