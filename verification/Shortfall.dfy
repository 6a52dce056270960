/** What pausing has taken off the bill: what pools' spare capacity couldn't hold of what's paused, and whose it is. */
module Shortfall {
  import opened Placements
  import opened Sums
  import opened Workloads
  import opened Wrappers

  /** Cores, and bytes of memory. */
  datatype Resources = Resources(cpu: real, memory: real) {
    function Add(o: Resources): Resources {
      Resources(cpu + o.cpu, memory + o.memory)
    }

    /** How much doesn't fit in room, in each dimension. */
    function BeyondRoom(room: Resources): Resources {
      Resources(Beyond(cpu, room.cpu), Beyond(memory, room.memory))
    }

    function Of(d: Dim): real {
      if d.Cpu? then cpu else memory
    }
  }

  const ZERO := Resources(0.0, 0.0)

  datatype Dim = Cpu | Memory

  /** AnyPool stands for replicas whose pool wasn't recorded. */
  datatype Pool = AnyPool | Named(name: string)

  datatype Held = Held(workload: Uid, pool: Pool, res: Resources)

  datatype PoolSample = PoolSample(paused: Resources, spare: Resources, shortfall: Resources)

  const NO_SAMPLE := PoolSample(ZERO, ZERO, ZERO)

  function PoolOf(h: Held): Pool {
    h.pool
  }

  function WorkloadOf(h: Held): Uid {
    h.workload
  }

  function InDim(d: Dim): Held -> real {
    (h: Held) => h.res.Of(d)
  }

  // What a sample should come to

  ghost function Pooled(paused: seq<Held>, d: Dim): Pool -> real {
    (p: Pool) => KeyedSum(paused, PoolOf, p, InDim(d))
  }

  ghost function SpareIn(spare: map<Pool, Resources>, d: Dim): Pool -> real {
    (p: Pool) => if p in spare then spare[p].Of(d) else 0.0
  }

  ghost function Pools(paused: seq<Held>, spare: map<Pool, Resources>): set<Pool> {
    spare.Keys + set h | h in paused :: h.pool
  }

  ghost function LeftOver(paused: seq<Held>, spare: map<Pool, Resources>, d: Dim): real {
    Left(Pools(paused, spare) - {AnyPool}, Pooled(paused, d), SpareIn(spare, d))
  }

  /** What the pool has for its paused replicas: its spare, or for those of no known pool, what all pools have left. */
  ghost function Room(paused: seq<Held>, spare: map<Pool, Resources>, d: Dim): Pool -> real {
    (p: Pool) => if p == AnyPool then LeftOver(paused, spare, d) else SpareIn(spare, d)(p)
  }

  ghost function ShortIn(paused: seq<Held>, spare: map<Pool, Resources>, d: Dim): Pool -> real {
    (p: Pool) => Beyond(Pooled(paused, d)(p), Room(paused, spare, d)(p))
  }

  /** An entry's part of its pool's shortfall. */
  ghost function PartIn(paused: seq<Held>, spare: map<Pool, Resources>, d: Dim): Held -> real {
    (h: Held) => if Pooled(paused, d)(h.pool) > 0.0
         then ShortIn(paused, spare, d)(h.pool) * h.res.Of(d) / Pooled(paused, d)(h.pool) else 0.0
  }

  ghost function ShareIn(paused: seq<Held>, spare: map<Pool, Resources>, d: Dim): Uid -> real {
    (u: Uid) => KeyedSum(paused, WorkloadOf, u, PartIn(paused, spare, d))
  }

  ghost predicate Sampled(paused: seq<Held>, spare: map<Pool, Resources>, pools: map<Pool, PoolSample>) {
    && pools.Keys == Pools(paused, spare)
    && (forall p, d :: p in pools ==>
          && pools[p].paused.Of(d) == Pooled(paused, d)(p)
          && pools[p].spare.Of(d) == Room(paused, spare, d)(p)
          && pools[p].shortfall.Of(d) == ShortIn(paused, spare, d)(p))
  }

  ghost predicate Shared(paused: seq<Held>, spare: map<Pool, Resources>, shares: map<Uid, Resources>) {
    && shares.Keys == (set h | h in paused :: h.workload)
    && (forall u, d :: u in shares ==> shares[u].Of(d) == ShareIn(paused, spare, d)(u))
  }

  // Working it out

  function SampleOf(pools: map<Pool, PoolSample>, p: Pool): PoolSample {
    if p in pools then pools[p] else NO_SAMPLE
  }

  /** Each pool's spare, and the paused of the first entries. */
  ghost predicate Gathered(paused: seq<Held>, spare: map<Pool, Resources>, pools: map<Pool, PoolSample>) {
    && pools.Keys == Pools(paused, spare)
    && (forall p, d :: p in pools ==>
          pools[p].paused.Of(d) == Pooled(paused, d)(p) && pools[p].spare.Of(d) == SpareIn(spare, d)(p))
  }

  method Gather(paused: seq<Held>, spare: map<Pool, Resources>) returns (pools: map<Pool, PoolSample>)
    ensures Gathered(paused, spare, pools)
  {
    pools := map p | p in spare :: PoolSample(ZERO, spare[p], ZERO);
    for i := 0 to |paused|
      invariant Gathered(paused[..i], spare, pools)
    {
      var h := paused[i];
      var p := SampleOf(pools, h.pool);
      GatherOne(paused[..i], spare, pools, h);
      pools := pools[h.pool := p.(paused := p.paused.Add(h.res))];
      assert paused[..i + 1] == paused[..i] + [h];
    }
    assert paused[..|paused|] == paused;
  }

  lemma PooledGrows(before: seq<Held>, h: Held, d: Dim, p: Pool)
    ensures Pooled(before + [h], d)(p) == Pooled(before, d)(p) + if p == h.pool then h.res.Of(d) else 0.0
  {
  }

  lemma GatherOne(before: seq<Held>, spare: map<Pool, Resources>, pools: map<Pool, PoolSample>, h: Held)
    requires Gathered(before, spare, pools)
    ensures var p := SampleOf(pools, h.pool);
            Gathered(before + [h], spare, pools[h.pool := p.(paused := p.paused.Add(h.res))])
  {
    var next := pools[h.pool := SampleOf(pools, h.pool).(paused := SampleOf(pools, h.pool).paused.Add(h.res))];
    assert Pools(before + [h], spare) == Pools(before, spare) + {h.pool};
    forall p, d | p in next
      ensures next[p].paused.Of(d) == Pooled(before + [h], d)(p) && next[p].spare.Of(d) == SpareIn(spare, d)(p)
    {
      PooledGrows(before, h, d, p);
      if p !in pools {
        NoneInPool(before, p, d);
      } else {
        assert pools[p].paused.Of(d) == Pooled(before, d)(p) && pools[p].spare.Of(d) == SpareIn(spare, d)(p);
      }
    }
  }

  lemma {:induction false} NoneInPool(paused: seq<Held>, p: Pool, d: Dim)
    requires forall h :: h in paused ==> h.pool != p
    ensures Pooled(paused, d)(p) == 0.0
  {
    if paused != [] {
      NoneInPool(paused[..|paused| - 1], p, d);
    }
  }

  ghost function LeftOf(paused: seq<Held>, spare: map<Pool, Resources>, done: set<Pool>, d: Dim): real {
    Left(done, Pooled(paused, d), SpareIn(spare, d))
  }

  lemma LeftGrows(paused: seq<Held>, spare: map<Pool, Resources>, pools: map<Pool, PoolSample>, done: set<Pool>,
                  name: Pool, left: Resources)
    requires Gathered(paused, spare, pools) && name in pools && name !in done
    requires forall d :: left.Of(d) == LeftOf(paused, spare, done, d)
    ensures var p := pools[name];
            forall d :: left.Add(p.spare.BeyondRoom(p.paused)).Of(d) == LeftOf(paused, spare, done + {name}, d)
  {
    var p := pools[name];
    forall d
      ensures left.Add(p.spare.BeyondRoom(p.paused)).Of(d) == LeftOf(paused, spare, done + {name}, d)
    {
      LeftJoins(done, name, Pooled(paused, d), SpareIn(spare, d));
      assert left.Of(d) == LeftOf(paused, spare, done, d);
      assert left.Add(p.spare.BeyondRoom(p.paused)).Of(d) == left.Of(d) + Beyond(p.spare.Of(d), p.paused.Of(d));
      assert p.spare.Of(d) == SpareIn(spare, d)(name) && p.paused.Of(d) == Pooled(paused, d)(name);
    }
  }

  /** A pool's paused set against its own spare. */
  function Alone(p: PoolSample): PoolSample {
    p.(shortfall := p.paused.BeyondRoom(p.spare))
  }

  /** Sets each pool's paused against its spare, and those of no known pool against what the others have left. */
  method Settle(ghost paused: seq<Held>, ghost spare: map<Pool, Resources>, gathered: map<Pool, PoolSample>)
    returns (pools: map<Pool, PoolSample>)
    requires Gathered(paused, spare, gathered)
    ensures Sampled(paused, spare, pools)
  {
    pools := gathered;
    var left := ZERO;
    var todo := pools.Keys - {AnyPool};
    ghost var named := todo;
    LeftOfNone(paused, spare);
    assert named - todo == {};
    while todo != {}
      invariant todo <= named && pools.Keys == gathered.Keys
      invariant forall d :: left.Of(d) == LeftOf(paused, spare, named - todo, d)
      invariant forall p :: p in pools ==>
                  pools[p] == if p in named - todo then Alone(gathered[p]) else gathered[p]
    {
      var name := Pick(todo);
      var p := pools[name];
      LeftGrows(paused, spare, gathered, named - todo, name, left);
      pools := pools[name := Alone(p)];
      left := left.Add(p.spare.BeyondRoom(p.paused));
      assert named - (todo - {name}) == (named - todo) + {name};
      todo := todo - {name};
    }
    assert named - todo == Pools(paused, spare) - {AnyPool};
    if AnyPool in pools {
      var p := pools[AnyPool];
      pools := pools[AnyPool := Alone(p.(spare := left))];
    }
    SettledIsSampled(paused, spare, gathered, pools, left);
  }

  lemma LeftOfNone(paused: seq<Held>, spare: map<Pool, Resources>)
    ensures forall d :: ZERO.Of(d) == LeftOf(paused, spare, {}, d)
  {
  }

  lemma SettledIsSampled(paused: seq<Held>, spare: map<Pool, Resources>, gathered: map<Pool, PoolSample>,
                         pools: map<Pool, PoolSample>, left: Resources)
    requires Gathered(paused, spare, gathered) && pools.Keys == gathered.Keys
    requires forall d :: left.Of(d) == LeftOver(paused, spare, d)
    requires forall p :: p in pools ==>
               pools[p] == if p == AnyPool then Alone(gathered[p].(spare := left)) else Alone(gathered[p])
    ensures Sampled(paused, spare, pools)
  {
  }

  function Part(short: real, amount: real, total: real): real {
    if total > 0.0 then short * amount / total else 0.0
  }

  /** A share with an entry's part of its pool's shortfall. */
  function WithPart(s: Resources, p: PoolSample, h: Held): Resources {
    Resources(s.cpu + Part(p.shortfall.cpu, h.res.cpu, p.paused.cpu),
              s.memory + Part(p.shortfall.memory, h.res.memory, p.paused.memory))
  }

  method Share(paused: seq<Held>, ghost spare: map<Pool, Resources>, pools: map<Pool, PoolSample>)
    returns (shares: map<Uid, Resources>)
    requires Sampled(paused, spare, pools)
    ensures Shared(paused, spare, shares)
  {
    shares := map[];
    for i := 0 to |paused|
      invariant SharedUpTo(paused, spare, i, shares)
    {
      var h := paused[i];
      var s := if h.workload in shares then shares[h.workload] else ZERO;
      PartOf(paused, spare, pools, h, s);
      ShareOne(paused, spare, i, shares, WithPart(s, pools[h.pool], h));
      shares := shares[h.workload := WithPart(s, pools[h.pool], h)];
    }
    assert paused[..|paused|] == paused;
  }

  ghost predicate SharedUpTo(paused: seq<Held>, spare: map<Pool, Resources>, i: nat, shares: map<Uid, Resources>)
    requires i <= |paused|
  {
    && shares.Keys == (set h | h in paused[..i] :: h.workload)
    && (forall u, d :: u in shares ==>
          shares[u].Of(d) == KeyedSum(paused[..i], WorkloadOf, u, PartIn(paused, spare, d)))
  }

  lemma PartInIs(paused: seq<Held>, spare: map<Pool, Resources>, d: Dim, h: Held)
    ensures PartIn(paused, spare, d)(h) ==
              Part(ShortIn(paused, spare, d)(h.pool), h.res.Of(d), Pooled(paused, d)(h.pool))
  {
  }

  lemma PartOf(paused: seq<Held>, spare: map<Pool, Resources>, pools: map<Pool, PoolSample>, h: Held, s: Resources)
    requires Sampled(paused, spare, pools) && h in paused
    ensures h.pool in pools
    ensures forall d :: WithPart(s, pools[h.pool], h).Of(d) == s.Of(d) + PartIn(paused, spare, d)(h)
  {
    assert h.pool in pools;
    forall d
      ensures PartIn(paused, spare, d)(h)
              == Part(pools[h.pool].shortfall.Of(d), h.res.Of(d), pools[h.pool].paused.Of(d))
    {
      PartInIs(paused, spare, d, h);
    }
  }

  lemma ShareOne(paused: seq<Held>, spare: map<Pool, Resources>, i: nat, shares: map<Uid, Resources>, s: Resources)
    requires i < |paused| && SharedUpTo(paused, spare, i, shares)
    requires forall d :: s.Of(d) ==
               (if paused[i].workload in shares then shares[paused[i].workload] else ZERO).Of(d)
                 + PartIn(paused, spare, d)(paused[i])
    ensures SharedUpTo(paused, spare, i + 1, shares[paused[i].workload := s])
  {
    var before, after, u := paused[..i], paused[..i + 1], paused[i].workload;
    assert after == before + [paused[i]] && after[..i] == before;
    if u !in shares {
      forall d
        ensures KeyedSum(before, WorkloadOf, u, PartIn(paused, spare, d)) == 0.0
      {
        NoneOfWorkload(before, u, PartIn(paused, spare, d));
      }
    }
  }

  lemma {:induction false} NoneOfWorkload(paused: seq<Held>, u: Uid, f: Held -> real)
    requires forall h :: h in paused ==> h.workload != u
    ensures KeyedSum(paused, WorkloadOf, u, f) == 0.0
  {
    if paused != [] {
      NoneOfWorkload(paused[..|paused| - 1], u, f);
    }
  }

  /** Each pool's shortfall, and each workload's share of the shortfalls. */
  method Realise(paused: seq<Held>, spare: map<Pool, Resources>)
    returns (pools: map<Pool, PoolSample>, shares: map<Uid, Resources>)
    ensures Sampled(paused, spare, pools)
    ensures Shared(paused, spare, shares)
  {
    var gathered := Gather(paused, spare);
    pools := Settle(paused, spare, gathered);
    shares := Share(paused, spare, pools);
  }

  // What it comes to

  /** All a workload holds paused. */
  ghost function HeldIn(paused: seq<Held>, d: Dim): Uid -> real {
    (u: Uid) => KeyedSum(paused, WorkloadOf, u, InDim(d))
  }

  ghost predicate NoneNegative(paused: seq<Held>, spare: map<Pool, Resources>) {
    && (forall h, d: Dim :: h in paused ==> h.res.Of(d) >= 0.0)
    && (forall p, d: Dim :: p in spare ==> spare[p].Of(d) >= 0.0)
  }

  /** All the shortfalls, those of replicas of no known pool included. */
  ghost function AllShort(paused: seq<Held>, spare: map<Pool, Resources>, d: Dim): real {
    Sum(Pools(paused, spare), ShortIn(paused, spare, d))
  }

  lemma {:induction false} PooledIsNonNegative(paused: seq<Held>, d: Dim, p: Pool)
    requires forall h :: h in paused ==> h.res.Of(d) >= 0.0
    ensures Pooled(paused, d)(p) >= 0.0
  {
    if paused != [] {
      PooledIsNonNegative(paused[..|paused| - 1], d, p);
    }
  }

  /** The shortfalls are the named pools' own, and the unpooled replicas' beyond what those pools have left. */
  lemma AllShortIs(paused: seq<Held>, spare: map<Pool, Resources>, d: Dim)
    requires NoneNegative(paused, spare)
    ensures var named := Pools(paused, spare) - {AnyPool};
            AllShort(paused, spare, d) == Short(named, Pooled(paused, d), SpareIn(spare, d)) +
              Beyond(Pooled(paused, d)(AnyPool), Left(named, Pooled(paused, d), SpareIn(spare, d)))
  {
    var pools, named := Pools(paused, spare), Pools(paused, spare) - {AnyPool};
    ShortOver(named, Pooled(paused, d), SpareIn(spare, d), ShortIn(paused, spare, d));
    if AnyPool in pools {
      SumAdds(pools, AnyPool, ShortIn(paused, spare, d));
    } else {
      assert pools == named;
      NoneInPool(paused, AnyPool, d);
      NoneLeft(named, Pooled(paused, d), SpareIn(spare, d));
    }
  }

  /**
   * The shortfalls sum to exactly the least extra capacity that holding all that's paused would take, over every way
   * of placing what ran in no known pool in the pools or on new nodes.
   */
  lemma ShortfallIsLeast(paused: seq<Held>, spare: map<Pool, Resources>, d: Dim, place: Pool -> real, added: real)
    requires NoneNegative(paused, spare)
    requires IsPlacement(Pools(paused, spare) - {AnyPool}, Pooled(paused, d)(AnyPool), place, added)
    ensures Needed(Pools(paused, spare) - {AnyPool}, Pooled(paused, d), SpareIn(spare, d), place, added) >=
              AllShort(paused, spare, d)
  {
    AllShortIs(paused, spare, d);
    NonePlacesForLess(Pools(paused, spare) - {AnyPool}, Pooled(paused, d), SpareIn(spare, d),
                      Pooled(paused, d)(AnyPool), place, added);
  }

  lemma ShortfallIsAttained(paused: seq<Held>, spare: map<Pool, Resources>, d: Dim)
    returns (place: Pool -> real, added: real)
    requires NoneNegative(paused, spare)
    ensures IsPlacement(Pools(paused, spare) - {AnyPool}, Pooled(paused, d)(AnyPool), place, added)
    ensures Needed(Pools(paused, spare) - {AnyPool}, Pooled(paused, d), SpareIn(spare, d), place, added) ==
              AllShort(paused, spare, d)
  {
    AllShortIs(paused, spare, d);
    PooledIsNonNegative(paused, d, AnyPool);
    place, added := SomePlacesForThat(Pools(paused, spare) - {AnyPool}, Pooled(paused, d), SpareIn(spare, d),
                                      Pooled(paused, d)(AnyPool));
  }

  /** Workloads' shares sum to the pools' shortfalls. */
  lemma SharesConserve(paused: seq<Held>, spare: map<Pool, Resources>, d: Dim)
    requires NoneNegative(paused, spare)
    ensures Sum(set h | h in paused :: h.workload, ShareIn(paused, spare, d)) == AllShort(paused, spare, d)
  {
    var workloads, part := set h | h in paused :: h.workload, PartIn(paused, spare, d);
    GroupsSum(workloads, paused, WorkloadOf, part);
    SumSame(workloads, ShareIn(paused, spare, d), u => KeyedSum(paused, WorkloadOf, u, part));
    var byPool := (p: Pool) => KeyedSum(paused, PoolOf, p, part);
    GroupsSum(Pools(paused, spare), paused, PoolOf, part);
    forall p | p in Pools(paused, spare)
      ensures byPool(p) == ShortIn(paused, spare, d)(p)
    {
      PartsOfPool(paused, spare, d, p);
    }
    SumSame(Pools(paused, spare), byPool, ShortIn(paused, spare, d));
  }

  lemma PooledIs(paused: seq<Held>, d: Dim, p: Pool)
    ensures Pooled(paused, d)(p) == KeyedSum(paused, PoolOf, p, InDim(d))
  {
  }

  /** How much of what a pool is short by an amount's part is. */
  ghost function PartOfPool(short: real, total: real): real -> real {
    x => Part(short, x, total)
  }

  lemma PartIsAdditive(short: real, total: real)
    ensures Additive(PartOfPool(short, total))
  {
  }

  lemma WholePart(total: real, room: real)
    requires total >= 0.0 && room >= 0.0
    ensures PartOfPool(Beyond(total, room), total)(total) == Beyond(total, room)
  {
  }

  lemma PartsOfPool(paused: seq<Held>, spare: map<Pool, Resources>, d: Dim, p: Pool)
    requires NoneNegative(paused, spare)
    ensures KeyedSum(paused, PoolOf, p, PartIn(paused, spare, d)) == ShortIn(paused, spare, d)(p)
  {
    PooledIsNonNegative(paused, d, p);
    RoomIsNonNegative(paused, spare, d, p);
    PooledIs(paused, d, p);
    var total, room := Pooled(paused, d)(p), Room(paused, spare, d)(p);
    var part := PartOfPool(Beyond(total, room), total);
    PartIsAdditive(Beyond(total, room), total);
    PartsInPool(paused, spare, d, p);
    KeyedSumScales(paused, PoolOf, p, InDim(d), PartIn(paused, spare, d), part);
    WholePart(total, room);
  }

  lemma PartsInPool(paused: seq<Held>, spare: map<Pool, Resources>, d: Dim, p: Pool)
    ensures var part := PartOfPool(ShortIn(paused, spare, d)(p), Pooled(paused, d)(p));
            forall h :: h in paused && PoolOf(h) == p ==> PartIn(paused, spare, d)(h) == part(InDim(d)(h))
  {
  }

  lemma RoomIsNonNegative(paused: seq<Held>, spare: map<Pool, Resources>, d: Dim, p: Pool)
    requires NoneNegative(paused, spare)
    ensures Room(paused, spare, d)(p) >= 0.0
  {
    if p == AnyPool {
      NoneLeft(Pools(paused, spare) - {AnyPool}, Pooled(paused, d), SpareIn(spare, d));
      assert Room(paused, spare, d)(p) == LeftOver(paused, spare, d);
    } else {
      assert Room(paused, spare, d)(p) == SpareIn(spare, d)(p);
    }
  }

  /** What's short of a pool is shared in proportion to what's held in it. */
  lemma PartsAreProportional(paused: seq<Held>, spare: map<Pool, Resources>, d: Dim, g: Held, h: Held)
    requires g.pool == h.pool
    ensures PartIn(paused, spare, d)(g) * h.res.Of(d) == PartIn(paused, spare, d)(h) * g.res.Of(d)
  {
    var total, short := Pooled(paused, d)(g.pool), ShortIn(paused, spare, d)(g.pool);
    if total > 0.0 {
      Proportion(short, g.res.Of(d), h.res.Of(d), total);
    }
  }

  lemma Proportion(short: real, a: real, b: real, total: real)
    requires total > 0.0
    ensures short * a / total * b == short * b / total * a
  {
  }

  /** No workload's share exceeds what it holds paused. */
  lemma ShareIsWithinHeld(paused: seq<Held>, spare: map<Pool, Resources>, d: Dim, u: Uid)
    requires NoneNegative(paused, spare)
    ensures 0.0 <= ShareIn(paused, spare, d)(u) <= HeldIn(paused, d)(u)
  {
    forall h | h in paused
      ensures 0.0 <= PartIn(paused, spare, d)(h) <= h.res.Of(d)
    {
      PartIsWithin(paused, spare, d, h);
    }
    KeyedSumCompares(paused, WorkloadOf, u, PartIn(paused, spare, d), InDim(d));
    KeyedSumIsNonNegative(paused, WorkloadOf, u, PartIn(paused, spare, d));
  }

  lemma PartIsWithin(paused: seq<Held>, spare: map<Pool, Resources>, d: Dim, h: Held)
    requires NoneNegative(paused, spare) && h in paused
    ensures 0.0 <= PartIn(paused, spare, d)(h) <= h.res.Of(d)
  {
    RoomIsNonNegative(paused, spare, d, h.pool);
    var total, short, amount := Pooled(paused, d)(h.pool), ShortIn(paused, spare, d)(h.pool), h.res.Of(d);
    if total > 0.0 {
      Scaled(short, amount, total);
    }
  }

  lemma Scaled(short: real, amount: real, total: real)
    requires 0.0 <= short <= total && total > 0.0 && amount >= 0.0
    ensures 0.0 <= short * amount / total <= amount
  {
    assert short * amount <= total * amount;
    assert total * amount / total == amount;
  }
}
