/** What the allocator's contracts come to over several calls. */
module PortAllocatorProperties {
  import opened PortAllocator
  import opened Ports
  import opened Workloads
  import opened Wrappers

  /** The owner of routes assigned holds exactly their ports, and its namespace stays within its limit. */
  lemma AssignedStaysWithinLimits(m: Memory, holder: Holder, limits: Limits, now: int, existing: map<Key, Port>,
                                  keys: seq<Key>, routes: seq<Route>)
    requires LimitVerdict(m, holder, limits, |keys|).None?
    requires |routes| == |keys| && Routed(m, holder.uid, existing, keys, routes)
    ensures var a := Assigned(m, holder, now, PortSet(routes));
            && Owned(a, holder.uid) == PortSet(routes) && |PortSet(routes)| == |keys| <= limits.perWorkload
            && |InNamespace(a, holder.ns)| <= limits.perNamespace
  {
    RoutedMeans(m, holder.uid, existing, keys, routes);
    AssignedHolds(m, holder, now, PortSet(routes));
    AssignedInNamespace(m, holder, now, PortSet(routes));
  }

  /**
   * A workload may have so many ports exactly when that's within its limit and, with those its namespace has but for
   * its own, within the namespace's; its own is judged first, and the namespace's refusal says how many it would be.
   */
  lemma WithinBothIsAccepted(m: Memory, holder: Holder, limits: Limits, n: nat)
    ensures var all := n + |InNamespace(m, holder.ns) - Owned(m, holder.uid)|;
            && (LimitVerdict(m, holder, limits, n) == None <==> n <= limits.perWorkload && all <= limits.perNamespace)
            && (n > limits.perWorkload ==>
                  LimitVerdict(m, holder, limits, n) == Some(TooManyForWorkload(n, limits.perWorkload)))
            && (n <= limits.perWorkload && all > limits.perNamespace ==>
                  LimitVerdict(m, holder, limits, n) == Some(TooManyInNamespace(holder.ns, all, limits.perNamespace)))
  {
    assert InNamespace(m, holder.ns) - Owned(m, holder.uid) == Others(m, holder);
  }

  /** The ports a load leaves other workloads of the holder's namespace, as read. */
  ghost function OthersRead(m: Memory, u: PortsInUse, now: int, holder: Holder): set<Port> {
    set p | p in Merged(m, u, now).claims && exists h: Holder ::
      h.ns == holder.ns && h.uid != holder.uid && IsRead(m, Merged(m, u, now), u, h, p)
  }

  /** A namespace's limit holds across loads: what is read of its other workloads counts against what is assigned. */
  lemma LoadedStaysWithinLimits(m: Memory, u: PortsInUse, now: int, holder: Holder, limits: Limits, n: nat)
    requires OneHolderEach(u) && LimitVerdict(Expired(Merged(m, u, now), now), holder, limits, n).None?
    ensures n + |OthersRead(m, u, now, holder)| <= limits.perNamespace
    ensures forall h: Holder, p :: h.ns == holder.ns && h.uid != holder.uid && IsRead(m, Merged(m, u, now), u, h, p) ==>
              p in OthersRead(m, u, now, holder)
  {
    var r := Merged(m, u, now);
    forall h: Holder, p | h.ns == holder.ns && h.uid != holder.uid && IsRead(m, r, u, h, p)
      ensures p in OthersRead(m, u, now, holder) && p in Others(r, holder)
    {
      assert (h, p) in Reads(u);
      MergedHolder(m, u, now, h, p);
    }
    SubsetSize(OthersRead(m, u, now, holder), Others(r, holder));
    assert Others(Expired(r, now), holder) == Others(r, holder);
  }

  lemma {:induction false} RoutedPrefix(m: Memory, owner: Uid, existing: map<Key, Port>, keys: seq<Key>,
                                        routes: seq<Route>, i: nat)
    requires Routed(m, owner, existing, keys, routes) && i < |routes|
    ensures |routes| <= |keys| && NextRoute(m, owner, existing, keys[i], routes[..i], routes[i])
  {
    var last := |routes| - 1;
    if i < last {
      RoutedPrefix(m, owner, existing, keys, routes[..last], i);
      assert routes[..last][..i] == routes[..i];
    }
  }

  /** The first keys' routes are routes of the first keys. */
  lemma {:induction false} RoutedTakes(m: Memory, owner: Uid, existing: map<Key, Port>, keys: seq<Key>,
                                       routes: seq<Route>, n: nat)
    requires Routed(m, owner, existing, keys, routes) && n <= |routes|
    ensures n <= |keys| && Routed(m, owner, existing, keys[..n], routes[..n])
    decreases |routes|, n
  {
    if n == |routes| {
      assert routes[..n] == routes;
      if n > 0 {
        RoutedTakes(m, owner, existing, keys, routes[..n - 1], n - 1);
        assert routes[..n - 1][..n - 1] == routes[..n - 1];
        RoutedGrows(m, owner, existing, keys[..n - 1], routes[..n - 1], keys[n - 1]);
        assert keys[..n - 1] + [keys[n - 1]] == keys[..n];
      }
    } else {
      RoutedTakes(m, owner, existing, keys, routes[..|routes| - 1], n);
      assert routes[..|routes| - 1][..n] == routes[..n];
    }
  }

  lemma {:induction false} RoutedGrows(m: Memory, owner: Uid, existing: map<Key, Port>, keys: seq<Key>,
                                       routes: seq<Route>, key: Key)
    requires Routed(m, owner, existing, keys, routes)
    ensures Routed(m, owner, existing, keys + [key], routes)
  {
    if routes != [] {
      RoutedGrows(m, owner, existing, keys, routes[..|routes| - 1], key);
    }
  }

  /** While all keys up to one have usable ports, no two the same, it keeps its own however routing goes on. */
  lemma KeptWhenAllBeforeAre(m: Memory, owner: Uid, existing: map<Key, Port>, keys: seq<Key>, routes: seq<Route>,
                             i: nat)
    requires Routed(m, owner, existing, keys, routes) && i < |routes| && i < |keys|
    requires AllUsable(m, owner, existing, keys[..i + 1])
    ensures keys[i] in existing && routes[i] == Route(keys[i], existing[keys[i]])
  {
    RoutedTakes(m, owner, existing, keys, routes, i + 1);
    UsableRoutes(m, owner, existing, keys[..i + 1], routes[..i + 1]);
  }

  /** The first keys' own ports, which they may all keep. */
  function Own(existing: map<Key, Port>, keys: seq<Key>): seq<Route>
    requires forall k :: k in keys ==> k in existing
  {
    seq(|keys|, i requires 0 <= i < |keys| => Route(keys[i], existing[keys[i]]))
  }

  lemma {:induction false} OwnIsRouted(m: Memory, owner: Uid, existing: map<Key, Port>, keys: seq<Key>, n: nat)
    requires n <= |keys| && AllUsable(m, owner, existing, keys[..n])
    ensures Routed(m, owner, existing, keys, Own(existing, keys[..n]))
  {
    if n > 0 {
      var routes := Own(existing, keys[..n]);
      OwnIsRouted(m, owner, existing, keys, n - 1);
      assert routes[..n - 1] == Own(existing, keys[..n - 1]);
      assert keys[..n][n - 1] == keys[n - 1];
      assert existing[keys[n - 1]] !in PortSet(routes[..n - 1]);
    }
  }

  /** Some routing of keys before the one puts one of them on its port. */
  ghost predicate MayLose(m: Memory, owner: Uid, existing: map<Key, Port>, keys: seq<Key>, i: nat)
    requires i < |keys| && keys[i] in existing
  {
    exists routes :: Routed(m, owner, existing, keys, routes) && |routes| <= i && existing[keys[i]] in PortSet(routes)
  }

  /** From the first n keys on their own ports, the first key without one of its own may pick the port. */
  lemma {:induction false} PickedBefore(m: Memory, owner: Uid, existing: map<Key, Port>, keys: seq<Key>, i: nat, n: nat)
    requires n <= i < |keys| && keys[i] in existing && InRange(existing[keys[i]]) && Free(m, existing[keys[i]], owner)
    requires AllUsable(m, owner, existing, keys[..n]) && !AllUsable(m, owner, existing, keys[..i + 1])
    ensures MayLose(m, owner, existing, keys, i)
    decreases i - n
  {
    var own := Own(existing, keys[..n]);
    OwnIsRouted(m, owner, existing, keys, n);
    assert keys[..n + 1] == keys[..n] + [keys[n]];
    if existing[keys[i]] !in PortSet(own) {
      if AllUsable(m, owner, existing, keys[..n + 1]) {
        PickedBefore(m, owner, existing, keys, i, n + 1);
      } else {
        NotUsableNext(m, owner, existing, keys, n);
        RouteJoins(m, owner, existing, keys, own, Route(keys[n], existing[keys[i]]));
      }
    }
  }

  lemma NotUsableNext(m: Memory, owner: Uid, existing: map<Key, Port>, keys: seq<Key>, n: nat)
    requires n < |keys| && AllUsable(m, owner, existing, keys[..n]) && !AllUsable(m, owner, existing, keys[..n + 1])
    ensures !Usable(m, owner, existing, keys[n], Own(existing, keys[..n]))
  {
    var own := Own(existing, keys[..n]);
    assert keys[..n + 1] == keys[..n] + [keys[n]];
    forall i | 0 <= i < n
      ensures existing[keys[i]] in PortSet(own)
    {
      assert own[i] in own && own[i].port == existing[keys[..n][i]];
    }
  }

  /**
   * A port its owner may keep is out of earlier keys' reach, whatever is picked, exactly when they too all have usable
   * ports, no two the same nor the same as it.
   */
  lemma KeptUnlessAnEarlierPicks(m: Memory, owner: Uid, existing: map<Key, Port>, keys: seq<Key>, i: nat)
    requires i < |keys| && keys[i] in existing && InRange(existing[keys[i]]) && Free(m, existing[keys[i]], owner)
    ensures AllUsable(m, owner, existing, keys[..i + 1]) <==> !MayLose(m, owner, existing, keys, i)
  {
    if AllUsable(m, owner, existing, keys[..i + 1]) {
      forall routes | Routed(m, owner, existing, keys, routes) && |routes| <= i
        ensures existing[keys[i]] !in PortSet(routes)
      {
        RoutedTakes(m, owner, existing, keys, routes, |routes|);
        assert routes[..|routes|] == routes;
        assert AllUsable(m, owner, existing, keys[..|routes|]);
        UsableRoutes(m, owner, existing, keys[..|routes|], routes);
      }
    } else {
      assert keys[..0] == [];
      PickedBefore(m, owner, existing, keys, i, 0);
    }
  }

  /**
   * It isn't kept always: a key without a port may pick, at random, the very port a later key had, which the owner
   * may have as well, and that key then moves to another.
   */
  lemma EarlierKeyMayTakeALaterOnesPort()
    ensures exists m, owner, existing, keys: seq<Key>, routes: seq<Route> ::
              && Routed(m, owner, existing, keys, routes) && |routes| == |keys| == 2
              && keys[1] in existing && InRange(existing[keys[1]]) && Free(m, existing[keys[1]], owner)
              && routes[1].port != existing[keys[1]]
  {
    var owner, a, b := Uid(1), Key("a", ""), Key("b", "");
    var m := Memory(true, map[MIN_PORT := Claim(owner, "team", 0)], map[], 0);
    var existing := map[b := MIN_PORT];
    var keys, first := [a, b], [Route(a, MIN_PORT)];
    var routes := first + [Route(b, MIN_PORT + 1)];
    assert PortSet([]) == {};
    assert NextRoute(m, owner, existing, a, [], first[0]);
    assert first[..0] == [];
    assert Routed(m, owner, existing, keys, first);
    assert routes[..1] == first;
    PortSetGrows([], first[0]);
    assert [] + [first[0]] == first;
    assert PortSet(first) == {MIN_PORT};
    assert NextRoute(m, owner, existing, b, first, routes[1]);
    assert Routed(m, owner, existing, keys, routes);
  }

  /** The routes given before are usable again, whatever drains have ended since. */
  lemma GivenAreUsable(m: Memory, holder: Holder, now: int, later: int, existing: map<Key, Port>, keys: seq<Key>,
                       routes: seq<Route>, kept: map<Key, Port>)
    requires |routes| == |keys| && Routed(m, holder.uid, existing, keys, routes)
    requires forall i, j :: 0 <= i < j < |keys| ==> keys[i] != keys[j]
    requires forall r :: r in routes ==> r.key in kept && kept[r.key] == r.port
    ensures AllUsable(Expired(Assigned(m, holder, now, PortSet(routes)), later), holder.uid, kept, keys)
    ensures forall i :: 0 <= i < |keys| ==> keys[i] in kept && routes[i] == Route(keys[i], kept[keys[i]])
  {
    RoutedMeans(m, holder.uid, existing, keys, routes);
    AssignedHolds(m, holder, now, PortSet(routes));
    forall i | 0 <= i < |keys|
      ensures keys[i] in kept && kept[keys[i]] == routes[i].port && routes[i].port in PortSet(routes)
    {
      assert routes[i] in routes;
    }
    forall i, j | 0 <= i < j < |keys|
      ensures kept[keys[i]] != kept[keys[j]]
    {
      RoutedPrefix(m, holder.uid, existing, keys, routes, j);
      assert routes[..j][i] in routes[..j];
    }
  }

  lemma VerdictLasts(m: Memory, holder: Holder, limits: Limits, n: nat, now: int, later: int, chosen: set<Port>)
    requires forall p :: p in chosen ==> Free(m, p, holder.uid)
    ensures LimitVerdict(Expired(Assigned(m, holder, now, chosen), later), holder, limits, n)
            == LimitVerdict(m, holder, limits, n)
  {
    AssignedHolds(m, holder, now, chosen);
    assert Others(Expired(Assigned(m, holder, now, chosen), later), holder) == Others(m, holder);
  }

  lemma UsableAgain(a: Memory, owner: Uid, kept: map<Key, Port>, keys: seq<Key>, routes: seq<Route>, again: seq<Route>)
    requires AllUsable(a, owner, kept, keys) && Routed(a, owner, kept, keys, again)
    requires |again| == |routes| == |keys| && forall i :: 0 <= i < |keys| ==> routes[i] == Route(keys[i], kept[keys[i]])
    ensures again == routes
  {
    UsableRoutes(a, owner, kept, keys, again);
  }

  /** Assigning again from the routes given before, whatever drains have ended since, gives the same without a pick. */
  lemma RepeatGivesTheSame(m: Memory, holder: Holder, limits: Limits, now: int, later: int, existing: map<Key, Port>,
                           keys: seq<Key>, routes: seq<Route>, kept: map<Key, Port>, again: seq<Route>)
    requires LimitVerdict(m, holder, limits, |keys|).None?
    requires |routes| == |keys| && Routed(m, holder.uid, existing, keys, routes)
    requires forall i, j :: 0 <= i < j < |keys| ==> keys[i] != keys[j]
    requires forall r :: r in routes ==> r.key in kept && kept[r.key] == r.port
    ensures var a := Expired(Assigned(m, holder, now, PortSet(routes)), later);
            && LimitVerdict(a, holder, limits, |keys|).None?
            && AllUsable(a, holder.uid, kept, keys)
            && (|again| == |keys| && Routed(a, holder.uid, kept, keys, again) ==> again == routes)
  {
    var a := Expired(Assigned(m, holder, now, PortSet(routes)), later);
    GivenAreUsable(m, holder, now, later, existing, keys, routes, kept);
    RoutedMeans(m, holder.uid, existing, keys, routes);
    VerdictLasts(m, holder, limits, |keys|, now, later, PortSet(routes));
    if |again| == |keys| && Routed(a, holder.uid, kept, keys, again) {
      UsableAgain(a, holder.uid, kept, keys, routes, again);
    }
  }

  // One leader's run

  datatype Op =
    | Assign(holder: Holder, now: int, chosen: set<Port>)
    | Release(owner: Uid, now: int)
    | FinishLoad(inUse: PortsInUse, now: int)

  function Do(m: Memory, op: Op): Memory {
    match op
    case Assign(holder, now, chosen) => Assigned(Expired(m, now), holder, now, chosen)
    case Release(owner, now) => Released(m, owner, now, {})
    case FinishLoad(inUse, now) => if LoadDue(m, now) then Merged(m, inUse, now) else m
  }

  /** An assignment chooses ports free for the holder, whatever the read of a load under way has recorded. */
  ghost predicate CanDo(m: Memory, op: Op) {
    op.Assign? ==> forall p :: p in op.chosen ==> Free(Expired(m, op.now), p, op.holder.uid)
  }

  ghost predicate IsRun(m: Memory, ops: seq<Op>)
    decreases |ops|
  {
    ops == [] || (CanDo(m, ops[0]) && IsRun(Do(m, ops[0]), ops[1..]))
  }

  function At(op: Op): int {
    match op
    case Assign(_, now, _) => now
    case Release(_, now) => now
    case FinishLoad(_, now) => now
  }

  ghost predicate Gives(op: Op, port: Port) {
    op.Assign? && port in op.chosen
  }

  /** o had the port, or a load read it as o's. */
  ghost predicate MayHave(ops: seq<Op>, port: Port, owner: Uid, o: Uid) {
    o == owner || exists op :: op in ops && op.FinishLoad? && Hold(o, port) in Recorded(op.inUse)
  }

  /** The port drains for one that may have it, for long enough, and only such a one claims it. */
  ghost predicate DrainsOn(m: Memory, port: Port, until: int, may: Uid -> bool) {
    && (port in m.claims ==> may(m.claims[port].owner))
    && port in m.draining && may(m.draining[port].owner) && m.draining[port].until >= until
  }

  lemma StepDrainsOn(m: Memory, op: Op, port: Port, until: int, may: Uid -> bool)
    requires CanDo(m, op) && DrainsOn(m, port, until, may) && At(op) + PORT_DRAIN >= until
    requires op.FinishLoad? ==> forall o :: Hold(o, port) in Recorded(op.inUse) ==> may(o)
    requires op.Assign? ==> op.now < until
    ensures Gives(op, port) ==> may(op.holder.uid)
    ensures !Gives(op, port) ==> DrainsOn(Do(m, op), port, until, may)
  {
    if op.FinishLoad? {
      MergedHolds(m, op.inUse, op.now);
    }
  }

  /** Goes along to the first that gives the port to anyone. */
  lemma {:induction false} DrainKeepsOthersOff(m: Memory, ops: seq<Op>, port: Port, until: int, may: Uid -> bool)
    requires IsRun(m, ops) && DrainsOn(m, port, until, may)
    requires forall op :: op in ops ==> At(op) + PORT_DRAIN >= until
    requires forall op, o :: op in ops && op.FinishLoad? && Hold(o, port) in Recorded(op.inUse) ==> may(o)
    requires ops != [] && Gives(ops[|ops| - 1], port) && forall i :: 0 <= i < |ops| - 1 ==> !Gives(ops[i], port)
    ensures may(ops[|ops| - 1].holder.uid) || exists op :: op in ops && op.Assign? && op.now >= until
    decreases |ops|
  {
    var op, rest := ops[0], ops[1..];
    assert ops == [op] + rest;
    assert op in ops;
    if op.Assign? && op.now >= until {
      return;
    }
    StepDrainsOn(m, op, port, until, may);
    if rest != [] {
      assert forall i :: 0 <= i < |rest| - 1 ==> rest[i] == ops[i + 1];
      DrainKeepsOthersOff(Do(m, op), rest, port, until, may);
      if late :| late in rest && late.Assign? && late.now >= until {
        assert late in ops;
      }
    }
  }

  /**
   * Within one leader, a port released at t first goes, before t + portDrain, to the one that released it or one a load
   * has since read it for, whatever is assigned, released and loaded in between, and whenever the reads those loads
   * finish with were made.
   */
  lemma ReleasedPortsDrain(m: Memory, ops: seq<Op>, port: Port, owner: Uid, t: int)
    requires Claims(m, port, owner) && IsRun(m, [Release(owner, t)] + ops)
    requires forall op :: op in ops ==> At(op) >= t
    requires ops != [] && Gives(ops[|ops| - 1], port) && forall i :: 0 <= i < |ops| - 1 ==> !Gives(ops[i], port)
    ensures MayHave(ops, port, owner, ops[|ops| - 1].holder.uid) ||
            exists op :: op in ops && op.Assign? && op.now >= t + PORT_DRAIN
  {
    assert ([Release(owner, t)] + ops)[1..] == ops;
    var may := (o: Uid) => MayHave(ops, port, owner, o);
    DrainKeepsOthersOff(Released(m, owner, t, {}), ops, port, t + PORT_DRAIN, may);
  }
}
