/** How statuses and slices record doorman ports for the next leader to read. */
module DoormanRecords {
  import opened DoormanProtocol
  import opened Ports
  import opened Times
  import opened Workloads
  import opened Wrappers

  // Statuses

  /** A drain as a status lists it: the port, and until when. */
  type DrainEntry = (Port, int)

  ghost function StillDraining(draining: seq<DrainEntry>, keep: set<Port>, now: int): set<DrainEntry> {
    set d | d in draining && now < d.1 && d.0 !in keep
  }

  ghost function NewlyDraining(draining: seq<DrainEntry>, routes: seq<Port>, keep: set<Port>, now: int): set<Port> {
    set p | p in routes && p !in keep && forall d :: d in StillDraining(draining, keep, now) ==> d.0 != p
  }

  /** What a status should list once its routes keep only those ports. */
  ghost function Draining(draining: seq<DrainEntry>, routes: seq<Port>, keep: set<Port>, now: int): set<DrainEntry> {
    StillDraining(draining, keep, now) + set p | p in NewlyDraining(draining, routes, keep, now) ::
        (p, now + PORT_DRAIN)
  }

  ghost predicate OnePerPort(draining: seq<DrainEntry>) {
    forall i, j :: 0 <= i < j < |draining| ==> draining[i].0 != draining[j].0
  }

  method KeepDraining(draining: seq<DrainEntry>, keep: set<Port>, now: int) returns (out: seq<DrainEntry>)
    ensures (set d | d in out) == StillDraining(draining, keep, now)
    ensures OnePerPort(draining) ==> OnePerPort(out)
  {
    out := [];
    for i := 0 to |draining|
      invariant forall d :: d in out <==> d in draining[..i] && now < d.1 && d.0 !in keep
      invariant OnePerPort(draining) ==> OnePerPort(out)
    {
      if now < draining[i].1 && draining[i].0 !in keep {
        out := out + [draining[i]];
      }
    }
  }

  /** Notes the ports the routes are about to give up, and forgets drains that are over or taken back. */
  method RecordPortDrains(draining: seq<DrainEntry>, routes: seq<Port>, kept: seq<Port>, now: int)
    returns (out: seq<DrainEntry>)
    ensures (set d | d in out) == Draining(draining, routes, (set p | p in kept), now)
    ensures OnePerPort(draining) ==> OnePerPort(out)
  {
    var keep := set p | p in kept;
    out := KeepDraining(draining, keep, now);
    ghost var still := set d | d in out;
    for i := 0 to |routes|
      invariant forall d :: d in out <==>
                  || d in still
                  || (d.0 in routes[..i] && d.0 !in keep && d.1 == now + PORT_DRAIN
                      && forall e :: e in still ==> e.0 != d.0)
      invariant OnePerPort(draining) ==> OnePerPort(out)
    {
      var p := routes[i];
      if p !in keep && forall d :: d in out ==> d.0 != p {
        out := out + [(p, now + PORT_DRAIN)];
      }
    }
    assert routes[..|routes|] == routes;
    forall d
      ensures d in out <==> d in Draining(draining, routes, keep, now)
    {
      assert d.0 in NewlyDraining(draining, routes, keep, now) <==>
             d.0 in routes && d.0 !in keep && forall e :: e in still ==> e.0 != d.0;
    }
  }

  /**
   * Which lists no drain that is over, nor a port kept, and nothing that neither drained nor was a route; but lists
   * every other drain as it was, and every route given up, until a minute from now if it didn't drain already.
   */
  lemma ListsWhatDrains(draining: seq<DrainEntry>, routes: seq<Port>, keep: set<Port>, now: int)
    ensures forall d :: d in Draining(draining, routes, keep, now) ==>
              now < d.1 && d.0 !in keep && (d in draining || (d.0 in routes && d.1 == now + 60 * SECOND))
    ensures forall d :: d in draining && now < d.1 && d.0 !in keep ==> d in Draining(draining, routes, keep, now)
    ensures forall p :: p in routes && p !in keep ==> exists d :: d in Draining(draining, routes, keep, now) && d.0 == p
  {
    forall p | p in routes && p !in keep
      ensures exists d :: d in Draining(draining, routes, keep, now) && d.0 == p
    {
      if d :| d in StillDraining(draining, keep, now) && d.0 == p {
        assert d in Draining(draining, routes, keep, now);
      } else {
        assert p in NewlyDraining(draining, routes, keep, now);
        assert (p, now + PORT_DRAIN) in Draining(draining, routes, keep, now);
      }
    }
  }

  /** Entries as a status keeps them, with times to the second. */
  ghost function StoredDrains(uid: Uid, entries: set<DrainEntry>): set<StatusDrain> {
    set d | d in entries :: StatusDrain(uid, d.0, Seconds(d.1))
  }

  /** The status lists what the API server has of the workload's drains and routes. */
  ghost predicate Lists(api: Api, uid: Uid, draining: seq<DrainEntry>, routes: seq<Port>) {
    && (forall n :: n in api.drains && n.drain.uid == uid ==> (n.drain.port, n.drain.until) in draining)
    && (forall d :: d in draining ==>
          Seconds(d.1) == d.1 && exists n :: n in api.drains && n.drain == StatusDrain(uid, d.0, d.1))
    && (forall p: Port :: p in routes <==> Hold(uid, p) in api.routes)
  }

  /** A status comes to list the drains the protocol's write has. */
  lemma DrainsAreRecorded(api: Api, m: Memory, uid: Uid, draining: seq<DrainEntry>, routes: seq<Port>, keep: set<Port>,
                          called: int, now: int)
    requires Lists(api, uid, draining, routes)
    ensures StoredDrains(uid, Draining(draining, routes, keep, now)) ==
              set n | n in RecordDrains(api, m, uid, keep, called, now) :: n.drain
  {
    var recorded := RecordDrains(api, m, uid, keep, called, now);
    forall p: Port
      ensures p in NewlyDraining(draining, routes, keep, now) <==> p in DroppedRoutes(api, uid, keep, now)
    {
      SameDropped(api, uid, draining, routes, keep, now, p);
    }
    forall n | n in recorded
      ensures n.drain in StoredDrains(uid, Draining(draining, routes, keep, now))
    {
      if n in KeptDrains(api, uid, keep, now) {
        assert (n.drain.port, n.drain.until) in StillDraining(draining, keep, now);
      } else {
        assert (n.drain.port, now + PORT_DRAIN) in Draining(draining, routes, keep, now);
      }
    }
    forall d | d in Draining(draining, routes, keep, now)
      ensures exists n :: n in recorded && n.drain == StatusDrain(uid, d.0, Seconds(d.1))
    {
      if d in StillDraining(draining, keep, now) {
        var n :| n in api.drains && n.drain == StatusDrain(uid, d.0, d.1);
        assert n in recorded;
      } else {
        assert Noted(StatusDrain(uid, d.0, Seconds(now + PORT_DRAIN)), Since(m, uid, d.0, called)) in recorded;
      }
    }
  }

  lemma SameDropped(api: Api, uid: Uid, draining: seq<DrainEntry>, routes: seq<Port>, keep: set<Port>, now: int,
                    p: Port)
    requires Lists(api, uid, draining, routes)
    ensures p in NewlyDraining(draining, routes, keep, now) <==> p in DroppedRoutes(api, uid, keep, now)
  {
  }

  // Slices

  /** A Service's port routed through the doorman. */
  datatype Route = Route(portName: string, doormanPort: Port)

  datatype SlicePort = SlicePort(name: string, port: Port)

  /** A doorman slice: its own ports are the forwarder's when it's forwarded, and what's recorded the doorman's. */
  datatype Slice = Slice(forwarded: bool, ports: seq<SlicePort>, recorded: map<string, Port>)

  ghost predicate NamesDiffer(routes: seq<Route>) {
    forall i, j :: 0 <= i < j < |routes| ==> routes[i].portName != routes[j].portName
  }

  /** Each port name with its port, the last if it's named twice. */
  function ByName(ports: seq<SlicePort>): map<string, Port> {
    if ports == [] then map[]
    else ByName(ports[..|ports| - 1])[ports[|ports| - 1].name := ports[|ports| - 1].port]
  }

  function Direct(routes: seq<Route>): seq<SlicePort> {
    seq(|routes|, i requires 0 <= i < |routes| => SlicePort(routes[i].portName, routes[i].doormanPort))
  }

  /** A slice's ports: the doorman's, or those the forwarder listens on, without routes it doesn't listen for. */
  method SlicePorts(routes: seq<Route>, forwarded: Option<map<string, Port>>) returns (out: seq<SlicePort>)
    ensures forwarded.None? ==> out == Direct(routes)
    ensures forwarded.Some? ==> forall p :: p in out ==>
              && p.name in forwarded.value && p.port == forwarded.value[p.name]
              && exists r :: r in routes && r.portName == p.name
    ensures forwarded.Some? ==> forall r :: r in routes && r.portName in forwarded.value ==>
              SlicePort(r.portName, forwarded.value[r.portName]) in out
  {
    out := [];
    for i := 0 to |routes|
      invariant forwarded.None? ==> out == Direct(routes[..i])
      invariant forwarded.Some? ==> forall p :: p in out ==>
                  && p.name in forwarded.value && p.port == forwarded.value[p.name]
                  && exists r :: r in routes && r.portName == p.name
      invariant forwarded.Some? ==> forall r :: r in routes[..i] && r.portName in forwarded.value ==>
                  SlicePort(r.portName, forwarded.value[r.portName]) in out
    {
      var port := routes[i].doormanPort;
      if forwarded.Some? {
        if routes[i].portName !in forwarded.value {
          continue;
        }
        port := forwarded.value[routes[i].portName];
      }
      out := out + [SlicePort(routes[i].portName, port)];
    }
  }

  /** The routes' doorman ports, for a forwarded slice to record. */
  method RecordDoormanPorts(routes: seq<Route>) returns (ports: map<string, Port>)
    ensures ports == ByName(Direct(routes))
  {
    ports := map[];
    for i := 0 to |routes|
      invariant ports == ByName(Direct(routes[..i]))
    {
      assert Direct(routes[..i + 1])[..i] == Direct(routes[..i]);
      ports := ports[routes[i].portName := routes[i].doormanPort];
    }
    assert routes[..|routes|] == routes;
  }

  /** The doorman ports a slice holds. */
  function DoormanPortsOf(s: Slice): map<string, Port> {
    if s.forwarded then s.recorded else ByName(s.ports)
  }

  /** The slice for a Service's routes, forwarded or not. */
  method SliceFor(routes: seq<Route>, forwarded: Option<map<string, Port>>) returns (s: Slice)
    ensures DoormanPortsOf(s) == ByName(Direct(routes))
  {
    var ports := SlicePorts(routes, forwarded);
    var recorded: map<string, Port> := map[];
    if forwarded.Some? {
      recorded := RecordDoormanPorts(routes);
    }
    s := Slice(forwarded.Some?, ports, recorded);
  }

  /** A slice, forwarded or not, gives back every route's doorman port by its name, and no other. */
  lemma {:induction false} SliceHoldsRoutes(routes: seq<Route>)
    requires NamesDiffer(routes)
    ensures forall name :: name in ByName(Direct(routes)) <==> exists r :: r in routes && r.portName == name
    ensures forall r :: r in routes ==> ByName(Direct(routes))[r.portName] == r.doormanPort
  {
    if routes != [] {
      var last := |routes| - 1;
      SliceHoldsRoutes(routes[..last]);
      assert Direct(routes)[..last] == Direct(routes[..last]);
      assert routes == routes[..last] + [routes[last]];
    }
  }
}
