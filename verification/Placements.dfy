/**
 * The least capacity that holding paused replicas would add, over every way of placing those whose pool isn't known.
 */
module Placements {
  import opened Sums

  function Beyond(amount: real, room: real): real {
    if amount > room then amount - room else 0.0
  }

  /** A way to place an amount: some of it in each pool, and some on new nodes. */
  ghost predicate IsPlacement<P(!new)>(pools: set<P>, amount: real, place: P -> real, added: real) {
    added >= 0.0 && (forall p :: p in pools ==> place(p) >= 0.0) && Sum(pools, place) + added == amount
  }

  /** What a placement would add: what each pool's own replicas and those placed there need beyond its spare. */
  ghost function Needed<P(!new)>(pools: set<P>, held: P -> real, spare: P -> real, place: P -> real,
                          added: real): real {
    Sum(pools, p => Beyond(held(p) + place(p), spare(p))) + added
  }

  ghost function Short<P(!new)>(pools: set<P>, held: P -> real, spare: P -> real): real {
    Sum(pools, p => Beyond(held(p), spare(p)))
  }

  ghost function Left<P(!new)>(pools: set<P>, held: P -> real, spare: P -> real): real {
    Sum(pools, p => Beyond(spare(p), held(p)))
  }

  /** No placement needs less than each pool's own shortfall, and the unpooled amount's beyond what pools have left. */
  lemma {:induction false} NonePlacesForLess<P(!new)>(pools: set<P>, held: P -> real, spare: P -> real, amount: real,
                                                      place: P -> real, added: real)
    requires IsPlacement(pools, amount, place, added)
    ensures Needed(pools, held, spare, place, added) >=
              Short(pools, held, spare) + Beyond(amount, Left(pools, held, spare))
  {
    var short, left := (p: P) => Beyond(held(p), spare(p)), (p: P) => Beyond(spare(p), held(p));
    var over := (p: P) => Beyond(place(p), left(p));
    var both := (p: P) => short(p) + over(p);
    SumOfSums(pools, short, over, both);
    SumCompares(pools, both, p => Beyond(held(p) + place(p), spare(p)));
    var reach := (p: P) => left(p) + over(p);
    SumOfSums(pools, left, over, reach);
    SumCompares(pools, place, reach);
    SumCompares(pools, p => 0.0, over);
    ZeroSum(pools, p => 0.0);
  }

  /** Filling what pools have left, one after another, needs no more. */
  lemma {:induction false} SomePlacesForThat<P(!new)>(pools: set<P>, held: P -> real, spare: P -> real, amount: real)
    returns (place: P -> real, added: real)
    requires amount >= 0.0
    ensures IsPlacement(pools, amount, place, added)
    ensures Needed(pools, held, spare, place, added) ==
              Short(pools, held, spare) + Beyond(amount, Left(pools, held, spare))
  {
    if pools == {} {
      place, added := p => 0.0, amount;
    } else {
      var k :| k in pools;
      var left := Beyond(spare(k), held(k));
      var here := if amount > left then left else amount;
      var rest: P -> real;
      rest, added := SomePlacesForThat(pools - {k}, held, spare, amount - here);
      place := p => if p == k then here else rest(p);
      SumAdds(pools, k, place);
      SumSame(pools - {k}, place, rest);
      var need := (p: P) => Beyond(held(p) + place(p), spare(p));
      SumAdds(pools, k, need);
      SumSame(pools - {k}, need, p => Beyond(held(p) + rest(p), spare(p)));
      SumAdds(pools, k, p => Beyond(held(p), spare(p)));
      SumAdds(pools, k, p => Beyond(spare(p), held(p)));
      NoneLeft(pools - {k}, held, spare);
    }
  }

  lemma NeededSame<P(!new)>(pools: set<P>, held: P -> real, same: P -> real, spare: P -> real, place: P -> real,
                            added: real)
    requires forall p :: p in pools ==> held(p) == same(p)
    ensures Needed(pools, held, spare, place, added) == Needed(pools, same, spare, place, added)
  {
    SumSame(pools, p => Beyond(held(p) + place(p), spare(p)), p => Beyond(same(p) + place(p), spare(p)));
  }

  lemma NoneLeft<P(!new)>(pools: set<P>, held: P -> real, spare: P -> real)
    ensures Left(pools, held, spare) >= 0.0
  {
    ZeroSum(pools, p => 0.0);
    SumCompares(pools, p => 0.0, p => Beyond(spare(p), held(p)));
  }

  lemma LeftJoins<P(!new)>(pools: set<P>, k: P, held: P -> real, spare: P -> real)
    requires k !in pools
    ensures Left(pools + {k}, held, spare) == Left(pools, held, spare) + Beyond(spare(k), held(k))
  {
    SumJoins(pools, k, p => Beyond(spare(p), held(p)));
  }

  lemma ShortOver<P(!new)>(pools: set<P>, held: P -> real, spare: P -> real, short: P -> real)
    requires forall p :: p in pools ==> short(p) == Beyond(held(p), spare(p))
    ensures Sum(pools, short) == Short(pools, held, spare)
  {
  }
}
