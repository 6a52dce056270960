/** The doorman port allocator: its methods against what Ports says of them, and what one leader's run keeps. */
module PortAllocator {
  import opened Ports
  import opened Workloads
  import opened Wrappers

  datatype Key = Key(service: string, portName: string)

  datatype Route = Route(key: Key, port: Port)

  datatype Limits = Limits(perWorkload: int, perNamespace: int)

  datatype AssignError =
    | TooManyForWorkload(want: int, limit: int)
    | TooManyInNamespace(ns: string, want: int, limit: int)
    | NoFreePort
    | NoRandomness
    | NotLoaded

  /** The ports of routes. */
  ghost function PortSet(routes: seq<Route>): set<Port> {
    set r | r in routes :: r.port
  }

  function LimitVerdict(m: Memory, holder: Holder, limits: Limits, n: nat): Option<AssignError> {
    if n > limits.perWorkload then Some(TooManyForWorkload(n, limits.perWorkload))
    else if n + |Others(m, holder)| > limits.perNamespace
    then Some(TooManyInNamespace(holder.ns, n + |Others(m, holder)|, limits.perNamespace))
    else None
  }

  /** The key's existing port is one the owner may keep, and no key before took it. */
  ghost predicate Usable(m: Memory, owner: Uid, existing: map<Key, Port>, key: Key, before: seq<Route>) {
    key in existing && InRange(existing[key]) && Free(m, existing[key], owner) && existing[key] !in PortSet(before)
  }

  /** r may come after the routes before: for the key, on a port of its own, the existing one if that's usable. */
  ghost predicate NextRoute(m: Memory, owner: Uid, existing: map<Key, Port>, key: Key, before: seq<Route>, r: Route) {
    && r.key == key && InRange(r.port) && Free(m, r.port, owner) && r.port !in PortSet(before)
    && (Usable(m, owner, existing, key, before) ==> r.port == existing[key])
  }

  /** Routes for the first keys, in order. */
  ghost predicate Routed(m: Memory, owner: Uid, existing: map<Key, Port>, keys: seq<Key>, routes: seq<Route>) {
    routes == [] ||
    (var last := |routes| - 1;
     last < |keys| && Routed(m, owner, existing, keys, routes[..last]) &&
     NextRoute(m, owner, existing, keys[last], routes[..last], routes[last]))
  }

  /** Routes are for the keys in order. */
  lemma {:induction false} RoutedInOrder(m: Memory, owner: Uid, existing: map<Key, Port>, keys: seq<Key>,
                                         routes: seq<Route>)
    requires Routed(m, owner, existing, keys, routes)
    ensures |routes| <= |keys|
    ensures forall i :: 0 <= i < |routes| ==> routes[i].key == keys[i]
  {
    if routes != [] {
      RoutedInOrder(m, owner, existing, keys, routes[..|routes| - 1]);
    }
  }

  /** No two are on the same port. */
  lemma {:induction false} RoutedApart(m: Memory, owner: Uid, existing: map<Key, Port>, keys: seq<Key>,
                                       routes: seq<Route>)
    requires Routed(m, owner, existing, keys, routes)
    ensures |PortSet(routes)| == |routes|
  {
    if routes != [] {
      var last := |routes| - 1;
      RoutedApart(m, owner, existing, keys, routes[..last]);
      PortSetGrows(routes[..last], routes[last]);
      assert routes[..last] + [routes[last]] == routes;
    }
  }

  lemma {:induction false} RoutedPorts(m: Memory, owner: Uid, existing: map<Key, Port>, keys: seq<Key>,
                                       routes: seq<Route>)
    requires Routed(m, owner, existing, keys, routes)
    ensures forall p :: p in PortSet(routes) ==> InRange(p) && Free(m, p, owner)
  {
    if routes != [] {
      var last := |routes| - 1;
      RoutedPorts(m, owner, existing, keys, routes[..last]);
      PortSetGrows(routes[..last], routes[last]);
      assert routes[..last] + [routes[last]] == routes;
    }
  }

  /** What being routed comes to: for each key a port in range and free for the owner, no two the same. */
  lemma RoutedMeans(m: Memory, owner: Uid, existing: map<Key, Port>, keys: seq<Key>, routes: seq<Route>)
    requires Routed(m, owner, existing, keys, routes)
    ensures |routes| <= |keys| && |PortSet(routes)| == |routes|
    ensures forall i :: 0 <= i < |routes| ==> routes[i].key == keys[i]
    ensures forall p :: p in PortSet(routes) ==> 20000 <= p <= 29999 && Free(m, p, owner)
  {
    RoutedInOrder(m, owner, existing, keys, routes);
    RoutedApart(m, owner, existing, keys, routes);
    RoutedPorts(m, owner, existing, keys, routes);
  }

  lemma PortSetGrows(routes: seq<Route>, r: Route)
    ensures PortSet(routes + [r]) == PortSet(routes) + {r.port}
  {
  }

  /** Keeping what all keys have is the only way to route them. */
  lemma {:induction false} UsableRoutes(m: Memory, owner: Uid, existing: map<Key, Port>, keys: seq<Key>,
                                        routes: seq<Route>)
    requires AllUsable(m, owner, existing, keys) && Routed(m, owner, existing, keys, routes)
    ensures |routes| <= |keys|
    ensures forall i :: 0 <= i < |routes| ==> routes[i] == Route(keys[i], existing[keys[i]])
  {
    if routes != [] {
      var last := |routes| - 1;
      UsableRoutes(m, owner, existing, keys, routes[..last]);
      assert existing[keys[last]] !in PortSet(routes[..last]);
    }
  }

  /** Every key has an existing port the owner may keep, and no two the same. */
  ghost predicate AllUsable(m: Memory, owner: Uid, existing: map<Key, Port>, keys: seq<Key>) {
    && (forall k :: k in keys ==> k in existing && InRange(existing[k]) && Free(m, existing[k], owner))
    && (forall i, j :: 0 <= i < j < |keys| ==> existing[keys[i]] != existing[keys[j]])
  }

  /** The memory once what is due has been loaded; None is a read that failed. */
  function Loaded(m: Memory, read: Option<PortsInUse>, now: int): Memory {
    if LoadDue(m, now) && read.Some? then Merged(m, read.value, now) else m
  }

  /**
   * What assigning does to a memory loaded as need be: over a limit, or short of ports, nothing but dropping drains
   * that are over; else each key has a port, and they are what the holder claims. picks counts the ports newly picked.
   */
  ghost predicate Assigns(before: Memory, after: Memory, now: int, holder: Holder, limits: Limits,
                          existing: map<Key, Port>,
                          keys: seq<Key>, res: Result<seq<Route>, AssignError>, picks: nat) {
    var m := Expired(before, now);
    var verdict := LimitVerdict(m, holder, limits, |keys|);
    && (res.Err? ==> after == m)
    && (verdict.Some? ==> res == Err(verdict.value))
    && (verdict.None? && res.Err? ==> res.error == NoFreePort || res.error == NoRandomness)
    && (res.Ok? ==>
          && |res.value| == |keys| && Routed(m, holder.uid, existing, keys, res.value)
          && after == Assigned(m, holder, now, PortSet(res.value)))
    && (res == Err(NoFreePort) ==> |FreePorts(m, holder.uid)| < |keys|)
    && (verdict.None? && AllUsable(m, holder.uid, existing, keys) ==> res.Ok? && picks == 0)
  }

  /** The ports the owner could have. */
  ghost function FreePorts(m: Memory, owner: Uid): set<Port> {
    set p: Port | p <= MAX_PORT && InRange(p) && Free(m, p, owner)
  }

  /** A port in range that isn't used, searched for from a random start, or an error only when there is none. */
  method AllocatePort(used: Port -> bool) returns (port: Result<Port, AssignError>)
    ensures port.Ok? ==> InRange(port.value) && !used(port.value)
    ensures port == Err(NoFreePort) ==> forall p :: InRange(p) ==> used(p)
    ensures port.Err? ==> port.error == NoFreePort || port.error == NoRandomness
  {
    if * {
      return Err(NoRandomness);
    }
    var start :| 0 <= start < SPAN;
    for i := 0 to SPAN
      invariant forall p :: MIN_PORT + start <= p < MIN_PORT + start + i && p <= MAX_PORT ==> used(p)
      invariant forall p :: MIN_PORT <= p < MIN_PORT + start + i - SPAN ==> used(p)
    {
      var p := MIN_PORT + (start + i) % SPAN;
      assert (start + i) % SPAN == if start + i < SPAN then start + i else start + i - SPAN;
      if !used(p) {
        return Ok(p);
      }
    }
    return Err(NoFreePort);
  }

  lemma StillUsable(m: Memory, owner: Uid, existing: map<Key, Port>, keys: seq<Key>, routes: seq<Route>)
    requires AllUsable(m, owner, existing, keys) && Routed(m, owner, existing, keys, routes) && |routes| < |keys|
    ensures Usable(m, owner, existing, keys[|routes|], routes)
  {
    UsableRoutes(m, owner, existing, keys, routes);
  }

  lemma RouteJoins(m: Memory, owner: Uid, existing: map<Key, Port>, keys: seq<Key>, routes: seq<Route>, r: Route)
    requires |routes| < |keys| && Routed(m, owner, existing, keys, routes)
    requires NextRoute(m, owner, existing, keys[|routes|], routes, r)
    ensures Routed(m, owner, existing, keys, routes + [r])
    ensures PortSet(routes + [r]) == PortSet(routes) + {r.port}
  {
  }

  /** Picks a port that's neither chosen already nor another's. */
  method PickPort(m: Memory, owner: Uid, chosen: set<Port>) returns (port: Result<Port, AssignError>)
    ensures port.Ok? ==> InRange(port.value) && port.value !in chosen && Free(m, port.value, owner)
    ensures port == Err(NoFreePort) ==> |FreePorts(m, owner)| <= |chosen|
    ensures port.Err? ==> port.error == NoFreePort || port.error == NoRandomness
  {
    var used := (p: Port) => p in chosen || !Free(m, p, owner);
    port := AllocatePort(used);
    if port == Err(NoFreePort) {
      assert forall p :: InRange(p) ==> used(p);
      assert FreePorts(m, owner) <= chosen;
      SubsetSize(FreePorts(m, owner), chosen);
    }
  }

  lemma GivenUp(m: Memory, owner: Uid, now: int, keep: set<Port>, gone: set<Port>)
    requires gone == set p | p in m.claims && m.claims[p].owner == owner && p !in keep
    ensures Released(m, owner, now, keep).claims == m.claims - gone
    ensures Released(m, owner, now, keep).draining == m.draining + map p | p in gone :: Drain(owner, now + PORT_DRAIN)
  {
  }

  /** Claims ports read for an owner, but those claimed first or that drain for it. */
  method ClaimEach(claims: map<Port, Claim>, draining: map<Port, Drain>, ports: seq<Port>, owner: Uid, ns: string,
                   now: int)
    returns (found: map<Port, Claim>)
    ensures found == AllClaimed(claims, draining, ports, owner, ns, now)
  {
    found := claims;
    for j := 0 to |ports|
      invariant found == AllClaimed(claims, draining, ports[..j], owner, ns, now)
    {
      assert ports[..j + 1][..j] == ports[..j];
      if ports[j] !in found && !(ports[j] in draining && draining[ports[j]].owner == owner) {
        found := found[ports[j] := Claim(owner, ns, now)];
      }
    }
    assert ports[..|ports|] == ports;
  }

  class Allocator {
    var loaded: bool
    var claims: map<Port, Claim>
    var draining: map<Port, Drain>
    var loadedAt: int

    constructor ()
      ensures Mem() == FORGOTTEN
    {
      loaded, claims, draining, loadedAt := false, map[], map[], 0;
    }

    function Mem(): Memory
      reads this
    {
      Memory(loaded, claims, draining, loadedAt)
    }

    /** Drops the drains that are over. */
    method ExpireDrains(now: int)
      modifies this`draining
      ensures Mem() == Expired(old(Mem()), now)
    {
      var todo := draining.Keys;
      while todo != {}
        invariant todo <= draining.Keys <= old(draining).Keys
        invariant forall p :: p in old(draining) && (p in todo || now < old(draining)[p].until) ==> p in draining
        invariant forall p :: p in draining ==>
                    draining[p] == old(draining)[p] && (p in todo || now < draining[p].until)
      {
        var port := Pick(todo);
        if now >= draining[port].until {
          draining := draining - {port};
        }
        todo := todo - {port};
      }
      assert draining == Expired(old(Mem()), now).draining;
    }

    /** Counts the ports the namespace's other workloads claim. */
    method CountOthers(holder: Holder) returns (n: nat)
      ensures n == |Others(Mem(), holder)|
    {
      n := 0;
      var todo := claims.Keys;
      ghost var counted: set<Port> := {};
      while todo != {}
        invariant todo <= claims.Keys
        invariant counted == Others(Mem(), holder) - todo && n == |counted|
      {
        var port := Pick(todo);
        if claims[port].ns == holder.ns && claims[port].owner != holder.uid {
          n := n + 1;
          counted := counted + {port};
        }
        todo := todo - {port};
      }
      assert counted == Others(Mem(), holder);
    }

    /** Whether holder may hold n ports. */
    method WithinLimits(holder: Holder, limits: Limits, n: nat) returns (verdict: Option<AssignError>)
      ensures verdict == LimitVerdict(Mem(), holder, limits, n)
    {
      if n > limits.perWorkload {
        return Some(TooManyForWorkload(n, limits.perWorkload));
      }
      var others := CountOthers(holder);
      var inNamespace := n + others;
      if inNamespace > limits.perNamespace {
        return Some(TooManyInNamespace(holder.ns, inNamespace, limits.perNamespace));
      }
      return None;
    }

    /** Whether holder could be given n ports now, once what is due has been loaded. */
    method Fits(read: Option<PortsInUse>, now: int, holder: Holder, limits: Limits, n: nat)
      returns (verdict: Option<AssignError>)
      modifies this
      ensures Mem() == Loaded(old(Mem()), read, now)
      ensures verdict == if LoadDue(old(Mem()), now) && read.None? then Some(NotLoaded)
                         else LimitVerdict(Loaded(old(Mem()), read, now), holder, limits, n)
    {
      var ok := Load(read, now);
      if !ok {
        return Some(NotLoaded);
      }
      verdict := WithinLimits(holder, limits, n);
    }

    /** Chooses a port for each key, without claiming any. picks counts the ports newly picked. */
    method Choose(owner: Uid, existing: map<Key, Port>, keys: seq<Key>)
      returns (res: Result<seq<Route>, AssignError>, ghost picks: nat)
      ensures res.Ok? ==> |res.value| == |keys| && Routed(Mem(), owner, existing, keys, res.value)
      ensures AllUsable(Mem(), owner, existing, keys) ==> res.Ok? && picks == 0
      ensures res == Err(NoFreePort) ==> |FreePorts(Mem(), owner)| < |keys|
      ensures res.Err? ==> res.error == NoFreePort || res.error == NoRandomness
    {
      var m := Mem();
      var chosen: set<Port> := {};
      var routes: seq<Route> := [];
      picks := 0;
      for i := 0 to |keys|
        invariant |routes| == i && Routed(m, owner, existing, keys, routes)
        invariant chosen == PortSet(routes) && |chosen| <= i
        invariant AllUsable(m, owner, existing, keys) ==> picks == 0
      {
        var key := keys[i];
        var next: Route;
        if key in existing && InRange(existing[key]) && existing[key] !in chosen && Free(m, existing[key], owner) {
          next := Route(key, existing[key]);
        } else {
          if AllUsable(m, owner, existing, keys) {
            StillUsable(m, owner, existing, keys, routes);
          }
          picks := picks + 1;
          var port := PickPort(m, owner, chosen);
          if port.Err? {
            return Err(port.error), picks;
          }
          next := Route(key, port.value);
        }
        RouteJoins(m, owner, existing, keys, routes, next);
        chosen, routes := chosen + {next.port}, routes + [next];
      }
      return Ok(routes), picks;
    }

    /** Gives up the owner's ports but those to keep. */
    method ReleaseLocked(owner: Uid, now: int, keep: set<Port>)
      modifies this`claims, this`draining
      ensures Mem() == Released(old(Mem()), owner, now, keep)
    {
      var held, given := claims, draining;
      var todo := claims.Keys;
      ghost var gone := set p | p in claims && claims[p].owner == owner && p !in keep;
      while todo != {}
        invariant Mem() == old(Mem()) && todo <= claims.Keys
        invariant held == claims - (gone - todo)
        invariant given == draining + map p | p in gone - todo :: Drain(owner, now + PORT_DRAIN)
      {
        var port := Pick(todo);
        if held[port].owner == owner && port !in keep {
          held := held - {port};
          given := given[port := Drain(owner, now + PORT_DRAIN)];
        }
        todo := todo - {port};
      }
      assert gone - todo == gone;
      GivenUp(Mem(), owner, now, keep, gone);
      claims, draining := held, given;
    }

    /** Lets go of every port the workload holds. */
    method Release(owner: Uid, now: int)
      modifies this`claims, this`draining
      ensures Mem() == Released(old(Mem()), owner, now, {})
    {
      ReleaseLocked(owner, now, {});
    }

    /** Gives each key a port and claims them for the holder, once what is due has been loaded. */
    method Assign(read: Option<PortsInUse>, now: int, holder: Holder, limits: Limits, existing: map<Key, Port>,
                  keys: seq<Key>)
      returns (res: Result<seq<Route>, AssignError>, ghost picks: nat)
      modifies this
      ensures LoadDue(old(Mem()), now) && read.None? ==> res == Err(NotLoaded) && Mem() == old(Mem())
      ensures !(LoadDue(old(Mem()), now) && read.None?) ==>
                Assigns(Loaded(old(Mem()), read, now), Mem(), now, holder, limits, existing, keys, res, picks)
    {
      var ok := Load(read, now);
      if !ok {
        return Err(NotLoaded), 0;
      }
      res, picks := AssignLoaded(now, holder, limits, existing, keys);
    }

    /** Gives each key a port and claims them for the holder. */
    method AssignLoaded(now: int, holder: Holder, limits: Limits, existing: map<Key, Port>, keys: seq<Key>)
      returns (res: Result<seq<Route>, AssignError>, ghost picks: nat)
      modifies this`claims, this`draining
      ensures Assigns(old(Mem()), Mem(), now, holder, limits, existing, keys, res, picks)
    {
      picks := 0;
      ExpireDrains(now);
      ghost var e := Mem();
      var verdict := WithinLimits(holder, limits, |keys|);
      if verdict.Some? {
        return Err(verdict.value), picks;
      }
      res, picks := Choose(holder.uid, existing, keys);
      if res.Err? {
        return;
      }
      var chosen := set r | r in res.value :: r.port;
      ReleaseLocked(holder.uid, now, chosen);
      ClaimAll(holder, now, chosen);
    }

    /** Claims the chosen ports, which then don't drain. */
    method ClaimAll(holder: Holder, now: int, chosen: set<Port>)
      modifies this`claims, this`draining
      ensures claims == old(claims) + map p | p in chosen :: Claim(holder.uid, holder.ns, now)
      ensures draining == old(draining) - chosen
    {
      var todo := chosen;
      while todo != {}
        invariant todo <= chosen
        invariant claims.Keys == old(claims).Keys + (chosen - todo)
        invariant forall p :: p in claims ==>
                    claims[p] == if p in chosen - todo then Claim(holder.uid, holder.ns, now) else old(claims)[p]
        invariant draining.Keys == old(draining).Keys - (chosen - todo)
        invariant forall p :: p in draining ==> draining[p] == old(draining)[p]
      {
        var port := Pick(todo);
        claims := claims[port := Claim(holder.uid, holder.ns, now)];
        draining := draining - {port};
        todo := todo - {port};
      }
    }

    method LoadIsDue(now: int) returns (due: bool)
      ensures due <==> LoadDue(Mem(), now)
    {
      due := !loaded || now - loadedAt >= PORTS_RELOAD;
    }

    /** Loads what is in use, as read, when that's due. */
    method Load(read: Option<PortsInUse>, now: int) returns (ok: bool)
      modifies this
      ensures ok <==> !LoadDue(old(Mem()), now) || read.Some?
      ensures Mem() == Loaded(old(Mem()), read, now)
    {
      var due := LoadIsDue(now);
      if !due {
        return true;
      }
      if read.None? {
        return false;
      }
      FinishLoad(read.value, now);
      ok := true;
    }

    /** Finishes a load begun at now with what it read, unless another load got there first. */
    method FinishLoad(inUse: PortsInUse, now: int)
      modifies this
      ensures Mem() == if LoadDue(old(Mem()), now) then Merged(old(Mem()), inUse, now) else old(Mem())
    {
      if loaded && now - loadedAt < PORTS_RELOAD {
        return;
      }
      Merge(inUse, now);
    }

    /** Replaces the claims with those read, and the claims made since the last load. */
    method Merge(inUse: PortsInUse, now: int)
      modifies this
      ensures Mem() == Merged(old(Mem()), inUse, now)
    {
      var ws, ss := inUse.workloads, inUse.slices;
      ghost var known := draining;
      var found: map<Port, Claim> := map[];
      for i := 0 to |ws|
        invariant (found, draining) == FromWorkloads(known, ws[..i], now)
        invariant loaded == old(loaded) && claims == old(claims) && loadedAt == old(loadedAt)
      {
        assert ws[..i + 1][..i] == ws[..i];
        found := ClaimEach(found, draining, ws[i].routes, ws[i].uid, ws[i].ns, now);
        DrainEach(ws[i].drains, ws[i].uid, now);
      }
      assert ws[..|ws|] == ws;
      ghost var fromWorkloads, asRead := found, draining;
      for i := 0 to |ss|
        invariant found == FromSlices(fromWorkloads, draining, ss[..i], now) && draining == asRead
        invariant loaded == old(loaded) && claims == old(claims) && loadedAt == old(loadedAt)
      {
        assert ss[..i + 1][..i] == ss[..i];
        if ss[i].owner.Some? {
          found := ClaimEach(found, draining, ss[i].ports, ss[i].owner.value, ss[i].ns, now);
        }
      }
      assert ss[..|ss|] == ss;
      KeepNewer(found);
      loaded, loadedAt := true, now;
    }

    /** Notes a workload's unexpired drains of ports not known to drain. */
    method DrainEach(drains: seq<(Port, int)>, owner: Uid, now: int)
      modifies this`draining
      ensures draining == Drained(old(draining), drains, owner, now)
    {
      for j := 0 to |drains|
        invariant draining == Drained(old(draining), drains[..j], owner, now)
      {
        assert drains[..j + 1][..j] == drains[..j];
        var (port, until) := drains[j];
        if port !in draining && now < until {
          draining := draining[port := Drain(owner, until)];
        }
      }
      assert drains[..|drains|] == drains;
    }

    /** Makes the claims those found, and those made since the last load whose port isn't among them. */
    method KeepNewer(found: map<Port, Claim>)
      modifies this`claims
      ensures claims == found + Newer(old(Mem()), found)
    {
      ghost var newer := Newer(Mem(), found);
      var kept := found;
      var todo := claims.Keys;
      while todo != {}
        invariant Mem() == old(Mem()) && todo <= claims.Keys
        invariant kept.Keys == found.Keys + (newer.Keys - todo)
        invariant forall p :: p in kept ==> kept[p] == if p in found then found[p] else claims[p]
      {
        var port := Pick(todo);
        if port !in kept && claims[port].at > loadedAt {
          kept := kept[port := claims[port]];
        }
        todo := todo - {port};
      }
      claims := kept;
    }
  }
}
