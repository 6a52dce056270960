/** What the doorman port allocator remembers, and what each of its operations makes of it. */
module Ports {
  import opened Times
  import opened Workloads
  import opened Wrappers

  const MIN_PORT := 20000
  const MAX_PORT := 29999
  const SPAN := MAX_PORT - MIN_PORT + 1

  const PORT_DRAIN := MINUTE
  const PORTS_RELOAD := 30 * MINUTE

  type Port = nat

  datatype Holder = Holder(uid: Uid, ns: string)

  /** A port an owner holds; at is when the claim was last made. */
  datatype Claim = Claim(owner: Uid, ns: string, at: int)

  /** A port an owner gave up, out of reach of others until the drain ends. */
  datatype Drain = Drain(owner: Uid, until: int)

  datatype Memory = Memory(loaded: bool, claims: map<Port, Claim>, draining: map<Port, Drain>, loadedAt: int)

  const FORGOTTEN := Memory(false, map[], map[], 0)

  predicate InRange(port: Port) {
    MIN_PORT <= port <= MAX_PORT
  }

  predicate Claims(m: Memory, port: Port, owner: Uid) {
    port in m.claims && m.claims[port].owner == owner
  }

  predicate Drains(m: Memory, port: Port, owner: Uid) {
    port in m.draining && m.draining[port].owner == owner
  }

  /** owner may have the port: nobody else claims it, and it drains for nobody else. */
  predicate Free(m: Memory, port: Port, owner: Uid) {
    (port in m.claims ==> m.claims[port].owner == owner) && (port in m.draining ==> m.draining[port].owner == owner)
  }

  ghost function Owned(m: Memory, owner: Uid): set<Port> {
    set p | p in m.claims && m.claims[p].owner == owner
  }

  function Expired(m: Memory, now: int): Memory {
    m.(draining := map p | p in m.draining && now < m.draining[p].until :: m.draining[p])
  }

  /** The owner's ports but those to keep are given up, and drain. */
  function Released(m: Memory, owner: Uid, now: int, keep: set<Port>): Memory {
    m.(claims := map p | p in m.claims && (m.claims[p].owner != owner || p in keep) :: m.claims[p],
       draining := m.draining +
         map p | p in m.claims && m.claims[p].owner == owner && p !in keep :: Drain(owner, now + PORT_DRAIN))
  }

  /** The holder has exactly the chosen ports, which don't drain; the rest it had does. */
  function Assigned(m: Memory, holder: Holder, now: int, chosen: set<Port>): Memory {
    var r := Released(m, holder.uid, now, chosen);
    r.(claims := r.claims + map p | p in chosen :: Claim(holder.uid, holder.ns, now), draining := r.draining - chosen)
  }

  // Reading what is in use

  /** A workload's status as listed: the ports of its routes, and those draining with when they end. */
  datatype Listed = Listed(uid: Uid, ns: string, routes: seq<Port>, drains: seq<(Port, int)>)

  /** A doorman slice as listed: the workload that controls it, and the doorman ports it holds. */
  datatype ListedSlice = ListedSlice(owner: Option<Uid>, ns: string, ports: seq<Port>)

  datatype PortsInUse = PortsInUse(workloads: seq<Listed>, slices: seq<ListedSlice>)

  function Claimed(claims: map<Port, Claim>, draining: map<Port, Drain>, port: Port, owner: Uid, ns: string, now: int)
    : map<Port, Claim>
  {
    if port in claims || (port in draining && draining[port].owner == owner) then claims
    else claims[port := Claim(owner, ns, now)]
  }

  function AllClaimed(claims: map<Port, Claim>, draining: map<Port, Drain>, ports: seq<Port>, owner: Uid, ns: string,
                      now: int)
    : map<Port, Claim>
  {
    if ports == [] then claims
    else
      var last := |ports| - 1;
      Claimed(AllClaimed(claims, draining, ports[..last], owner, ns, now), draining, ports[last], owner, ns, now)
  }

  function Drained(draining: map<Port, Drain>, drains: seq<(Port, int)>, owner: Uid, now: int): map<Port, Drain> {
    if drains == [] then draining
    else
      var before := Drained(draining, drains[..|drains| - 1], owner, now);
      var (port, until) := drains[|drains| - 1];
      if port !in before && now < until then before[port := Drain(owner, until)] else before
  }

  /** Claims and drains once the workloads are gone through, from the drains known. */
  function FromWorkloads(known: map<Port, Drain>, workloads: seq<Listed>, now: int):
      (map<Port, Claim>, map<Port, Drain>)
  {
    if workloads == [] then (map[], known)
    else
      var w := workloads[|workloads| - 1];
      var (claims, draining) := FromWorkloads(known, workloads[..|workloads| - 1], now);
      (AllClaimed(claims, draining, w.routes, w.uid, w.ns, now), Drained(draining, w.drains, w.uid, now))
  }

  function FromSlices(claims: map<Port, Claim>, draining: map<Port, Drain>, slices: seq<ListedSlice>, now: int)
    : map<Port, Claim>
  {
    if slices == [] then claims
    else
      var s := slices[|slices| - 1];
      var before := FromSlices(claims, draining, slices[..|slices| - 1], now);
      if s.owner.None? then before else AllClaimed(before, draining, s.ports, s.owner.value, s.ns, now)
  }

  /** Claims made since the last load whose port nothing read claims. */
  function Newer(m: Memory, claims: map<Port, Claim>): map<Port, Claim> {
    map p | p in m.claims && p !in claims && m.claims[p].at > m.loadedAt :: m.claims[p]
  }

  function Merged(m: Memory, inUse: PortsInUse, now: int): Memory {
    var (claims, draining) := FromWorkloads(m.draining, inUse.workloads, now);
    var all := FromSlices(claims, draining, inUse.slices, now);
    Memory(true, all + Newer(m, all), draining, now)
  }

  predicate LoadDue(m: Memory, now: int) {
    !m.loaded || now - m.loadedAt >= PORTS_RELOAD
  }

  /** A leader loads before its first call, and once half an hour has gone by since the last. */
  lemma LoadsEveryHalfHour(m: Memory, now: int)
    ensures !m.loaded ==> LoadDue(m, now)
    ensures m.loaded ==> (LoadDue(m, now) <==> now >= m.loadedAt + 1800 * SECOND)
  {
  }

  // What assigning does

  /** The holder ends with exactly the chosen ports; what it drops drains; nobody else's claims or drains move. */
  lemma AssignedHolds(m: Memory, holder: Holder, now: int, chosen: set<Port>)
    requires forall p :: p in chosen ==> Free(m, p, holder.uid)
    ensures var a := Assigned(m, holder, now, chosen);
            && Owned(a, holder.uid) == chosen
            && (forall p :: p in chosen ==> p !in a.draining && a.claims[p] == Claim(holder.uid, holder.ns, now))
            && (forall p :: Claims(m, p, holder.uid) && p !in chosen ==>
                  a.draining[p] == Drain(holder.uid, now + PORT_DRAIN))
            && (forall p, o :: o != holder.uid ==> (Claims(m, p, o) <==> Claims(a, p, o)))
            && (forall p :: p in m.claims && m.claims[p].owner != holder.uid ==> a.claims[p] == m.claims[p])
            && (forall p, o :: o != holder.uid && Drains(a, p, o) ==> Drains(m, p, o) && a.draining[p] == m.draining[p])
  {
    var a := Assigned(m, holder, now, chosen);
    forall p
      ensures p in Owned(a, holder.uid) <==> p in chosen
    {
    }
  }

  ghost function InNamespace(m: Memory, ns: string): set<Port> {
    set p | p in m.claims && m.claims[p].ns == ns
  }

  function Others(m: Memory, holder: Holder): set<Port> {
    set p | p in m.claims && m.claims[p].ns == holder.ns && m.claims[p].owner != holder.uid
  }

  /** What the namespace then holds is what its other workloads did, and the chosen ports. */
  lemma AssignedInNamespace(m: Memory, holder: Holder, now: int, chosen: set<Port>)
    requires forall p :: p in chosen ==> Free(m, p, holder.uid)
    ensures InNamespace(Assigned(m, holder, now, chosen), holder.ns) == Others(m, holder) + chosen
    ensures Others(m, holder) !! chosen
    ensures |InNamespace(Assigned(m, holder, now, chosen), holder.ns)| == |Others(m, holder)| + |chosen|
  {
  }

  // What merging does

  datatype Hold = Hold(uid: Uid, port: Port)

  datatype StatusDrain = StatusDrain(uid: Uid, port: Port, until: int)

  ghost function PortHolds(owner: Uid, ports: seq<Port>): set<Hold> {
    set p | p in ports :: Hold(owner, p)
  }

  /** The ports read in statuses' routes. */
  ghost function RouteHolds(workloads: seq<Listed>): set<Hold> {
    set w, p | w in workloads && p in w.routes :: Hold(w.uid, p)
  }

  /** The ports read in slices. */
  ghost function SliceHolds(slices: seq<ListedSlice>): set<Hold> {
    set s, p | s in slices && s.owner.Some? && p in s.ports :: Hold(s.owner.value, p)
  }

  ghost function DrainsRead(workloads: seq<Listed>): set<StatusDrain> {
    set w, d | w in workloads && d in w.drains :: StatusDrain(w.uid, d.0, d.1)
  }

  /** All that is recorded of who holds what. */
  ghost function Recorded(u: PortsInUse): set<Hold> {
    RouteHolds(u.workloads) + SliceHolds(u.slices)
  }

  /** claims are of the holds given and the ones before, and none is left out but what drains for its owner. */
  ghost predicate ClaimsFrom(claims: map<Port, Claim>, draining: map<Port, Drain>, holds: set<Hold>, now: int) {
    && (forall p :: p in claims ==> claims[p].at == now && Hold(claims[p].owner, p) in holds)
    && (forall h :: h in holds ==> h.port in claims || (h.port in draining && draining[h.port].owner == h.uid))
  }

  /** No claim is of what was known to drain for its owner. */
  ghost predicate NotDraining(claims: map<Port, Claim>, known: map<Port, Drain>) {
    forall p :: p in claims && p in known ==> claims[p].owner != known[p].owner
  }

  ghost predicate Extends(known: map<Port, Drain>, draining: map<Port, Drain>) {
    forall p :: p in known ==> p in draining && draining[p] == known[p]
  }

  lemma {:induction false} AllClaimedFrom(claims: map<Port, Claim>, draining: map<Port, Drain>, known: map<Port, Drain>,
                                          ports: seq<Port>, owner: Uid, ns: string, now: int, holds: set<Hold>)
    requires ClaimsFrom(claims, draining, holds, now) && NotDraining(claims, known) && Extends(known, draining)
    ensures var all := AllClaimed(claims, draining, ports, owner, ns, now);
            ClaimsFrom(all, draining, holds + PortHolds(owner, ports), now) && NotDraining(all, known)
  {
    if ports == [] {
      assert holds + PortHolds(owner, ports) == holds;
    } else {
      var last := |ports| - 1;
      AllClaimedFrom(claims, draining, known, ports[..last], owner, ns, now, holds);
      assert ports == ports[..last] + [ports[last]];
      assert PortHolds(owner, ports) == PortHolds(owner, ports[..last]) + {Hold(owner, ports[last])};
    }
  }

  ghost function OwnDrains(owner: Uid, drains: seq<(Port, int)>): set<StatusDrain> {
    set d | d in drains :: StatusDrain(owner, d.0, d.1)
  }

  /** What drains beyond what was known is what statuses say does, unexpired, and none of that is left out. */
  ghost predicate DrainsFrom(known: map<Port, Drain>, draining: map<Port, Drain>, read: set<StatusDrain>, now: int) {
    && Extends(known, draining)
    && (forall p :: p in draining && p !in known
          ==> StatusDrain(draining[p].owner, p, draining[p].until) in read && now < draining[p].until)
    && (forall d :: d in read && now < d.until ==> d.port in draining)
  }

  lemma {:induction false} DrainedFrom(known: map<Port, Drain>, draining: map<Port, Drain>, drains: seq<(Port, int)>,
                                       owner: Uid, now: int, read: set<StatusDrain>)
    requires DrainsFrom(known, draining, read, now)
    ensures DrainsFrom(known, Drained(draining, drains, owner, now), read + OwnDrains(owner, drains), now)
    ensures Extends(draining, Drained(draining, drains, owner, now))
  {
    if drains == [] {
      assert read + OwnDrains(owner, drains) == read;
    } else {
      var last := |drains| - 1;
      DrainedFrom(known, draining, drains[..last], owner, now, read);
      assert drains == drains[..last] + [drains[last]];
      assert OwnDrains(owner, drains) ==
             OwnDrains(owner, drains[..last]) + {StatusDrain(owner, drains[last].0, drains[last].1)};
    }
  }

  lemma {:induction false} FromWorkloadsHolds(known: map<Port, Drain>, workloads: seq<Listed>, now: int)
    ensures var (claims, draining) := FromWorkloads(known, workloads, now);
            && ClaimsFrom(claims, draining, RouteHolds(workloads), now) && NotDraining(claims, known)
            && DrainsFrom(known, draining, DrainsRead(workloads), now)
  {
    if workloads != [] {
      var last := |workloads| - 1;
      var w, before := workloads[last], workloads[..last];
      FromWorkloadsHolds(known, before, now);
      var (claims, draining) := FromWorkloads(known, before, now);
      AllClaimedFrom(claims, draining, known, w.routes, w.uid, w.ns, now, RouteHolds(before));
      DrainedFrom(known, draining, w.drains, w.uid, now, DrainsRead(before));
      assert workloads == before + [w];
      assert RouteHolds(workloads) == RouteHolds(before) + PortHolds(w.uid, w.routes);
      assert DrainsRead(workloads) == DrainsRead(before) + OwnDrains(w.uid, w.drains);
    }
  }

  lemma {:induction false} FromSlicesHolds(claims: map<Port, Claim>, draining: map<Port, Drain>,
                                           known: map<Port, Drain>,
                                           slices: seq<ListedSlice>, now: int, holds: set<Hold>)
    requires ClaimsFrom(claims, draining, holds, now) && NotDraining(claims, known) && Extends(known, draining)
    ensures var all := FromSlices(claims, draining, slices, now);
            ClaimsFrom(all, draining, holds + SliceHolds(slices), now) && NotDraining(all, known)
  {
    if slices == [] {
      assert holds + SliceHolds(slices) == holds;
    } else {
      var last := |slices| - 1;
      var s, before := slices[last], slices[..last];
      FromSlicesHolds(claims, draining, known, before, now, holds);
      assert slices == before + [s];
      if s.owner.Some? {
        var c := FromSlices(claims, draining, before, now);
        AllClaimedFrom(c, draining, known, s.ports, s.owner.value, s.ns, now, holds + SliceHolds(before));
        assert SliceHolds(slices) == SliceHolds(before) + PortHolds(s.owner.value, s.ports);
        assert holds + SliceHolds(before) + PortHolds(s.owner.value, s.ports) == holds + SliceHolds(slices);
      } else {
        assert SliceHolds(slices) == SliceHolds(before);
      }
    }
  }

  predicate IsListed(drains: seq<(Port, int)>, port: Port, now: int) {
    exists d :: d in drains && d.0 == port && now < d.1
  }

  /** Whose drain of the port, of those not over, is listed first. */
  function FirstToDrain(workloads: seq<Listed>, port: Port, now: int): Option<Uid> {
    if workloads == [] then None
    else
      var before, w := FirstToDrain(workloads[..|workloads| - 1], port, now), workloads[|workloads| - 1];
      if before.Some? then before else if IsListed(w.drains, port, now) then Some(w.uid) else None
  }

  lemma {:induction false} DrainedIfListed(draining: map<Port, Drain>, drains: seq<(Port, int)>, owner: Uid, now: int,
                                           port: Port)
    ensures var all := Drained(draining, drains, owner, now);
            && (port in all <==> port in draining || IsListed(drains, port, now))
            && (port in all && port !in draining ==> all[port].owner == owner)
            && (port in draining ==> all[port] == draining[port])
  {
    if drains != [] {
      DrainedIfListed(draining, drains[..|drains| - 1], owner, now, port);
      assert drains == drains[..|drains| - 1] + [drains[|drains| - 1]];
    }
  }

  /** From nothing known, each port listed drains for the first it is listed for. */
  lemma {:induction false} FirstDrains(workloads: seq<Listed>, now: int, port: Port)
    ensures var (_, draining) := FromWorkloads(map[], workloads, now);
            && (port in draining <==> FirstToDrain(workloads, port, now).Some?)
            && (port in draining ==> Some(draining[port].owner) == FirstToDrain(workloads, port, now))
  {
    if workloads != [] {
      var before, w := workloads[..|workloads| - 1], workloads[|workloads| - 1];
      FirstDrains(before, now, port);
      var (_, draining) := FromWorkloads(map[], before, now);
      DrainedIfListed(draining, w.drains, w.uid, now, port);
    }
  }

  /**
   * What a merge comes to, in whatever order the lists come. A drain known stays; new ones are statuses' unexpired
   * ones, all of them. Each claim is of a hold read, or one made since the last load. Nothing given up while the
   * read was under way is claimed again. Every hold read is claimed, unless it drains for its owner, by it or by
   * another it is read for too; and every claim made since the last load is kept, unless the port is read for someone.
   */
  lemma MergedHolds(m: Memory, u: PortsInUse, now: int)
    ensures var r := Merged(m, u, now);
            && r.loaded && r.loadedAt == now
            && DrainsFrom(m.draining, r.draining, DrainsRead(u.workloads), now)
            && (forall p :: p in r.claims ==>
                  || (r.claims[p].at == now && Hold(r.claims[p].owner, p) in Recorded(u)
                      && !Drains(m, p, r.claims[p].owner))
                  || (p in m.claims && r.claims[p] == m.claims[p] && m.claims[p].at > m.loadedAt))
            && (forall h :: h in Recorded(u) ==> h.port in r.claims || Drains(r, h.port, h.uid))
            && (forall p :: p in m.claims && m.claims[p].at > m.loadedAt ==> p in r.claims)
            && (forall p :: p in m.claims && m.claims[p].at > m.loadedAt && (forall o :: Hold(o, p) !in Recorded(u))
                  ==> r.claims[p] == m.claims[p])
  {
    FromWorkloadsHolds(m.draining, u.workloads, now);
    var (claims, draining) := FromWorkloads(m.draining, u.workloads, now);
    FromSlicesHolds(claims, draining, m.draining, u.slices, now, RouteHolds(u.workloads));
  }
  // In which namespaces

  /** The ports read in statuses' routes, with who has them. */
  ghost function RouteReads(workloads: seq<Listed>): set<(Holder, Port)> {
    set w, p | w in workloads && p in w.routes :: (Holder(w.uid, w.ns), p)
  }

  /** The ports read in slices, with who has them. */
  ghost function SliceReads(slices: seq<ListedSlice>): set<(Holder, Port)> {
    set s, p | s in slices && s.owner.Some? && p in s.ports :: (Holder(s.owner.value, s.ns), p)
  }

  ghost function Reads(u: PortsInUse): set<(Holder, Port)> {
    RouteReads(u.workloads) + SliceReads(u.slices)
  }

  /** What claiming ports for an owner makes of one of them. */
  lemma {:induction false} AllClaimedAt(claims: map<Port, Claim>, draining: map<Port, Drain>, ports: seq<Port>,
                                        owner: Uid, ns: string, now: int, port: Port)
    ensures var all := AllClaimed(claims, draining, ports, owner, ns, now);
            && (port in all <==>
                  port in claims || (port in ports && !(port in draining && draining[port].owner == owner)))
            && (port in claims ==> all[port] == claims[port])
            && (port in all && port !in claims ==> all[port] == Claim(owner, ns, now))
  {
    if ports != [] {
      var last := |ports| - 1;
      AllClaimedAt(claims, draining, ports[..last], owner, ns, now, port);
      assert ports == ports[..last] + [ports[last]];
    }
  }

  /** A claim of a workload's is with its namespace. */
  lemma {:induction false} FromWorkloadsIn(known: map<Port, Drain>, workloads: seq<Listed>, now: int, port: Port)
    ensures var (claims, draining) := FromWorkloads(known, workloads, now);
            && (port in claims ==> exists h ::
                  && (h, port) in RouteReads(workloads) && claims[port] == Claim(h.uid, h.ns, now)
                  && !(port in known && known[port].owner == h.uid))
            && (port in known ==> port in draining && draining[port] == known[port])
            && (port in draining && port !in known ==> exists w :: w in workloads && w.uid == draining[port].owner)
  {
    if workloads != [] {
      var last := |workloads| - 1;
      var w, before := workloads[last], workloads[..last];
      FromWorkloadsIn(known, before, now, port);
      var (claims, draining) := FromWorkloads(known, before, now);
      AllClaimedAt(claims, draining, w.routes, w.uid, w.ns, now, port);
      DrainedIfListed(draining, w.drains, w.uid, now, port);
      assert workloads == before + [w];
      var (all, _) := FromWorkloads(known, workloads, now);
      if port in claims {
        var h :| (h, port) in RouteReads(before) && claims[port] == Claim(h.uid, h.ns, now)
                 && !(port in known && known[port].owner == h.uid);
        assert (h, port) in RouteReads(workloads);
      } else if port in all {
        assert (Holder(w.uid, w.ns), port) in RouteReads(workloads);
      }
    }
  }

  /** And each route of a workload listed once, that nobody else is read for and isn't known to drain, is claimed. */
  lemma {:induction false} RoutesAreClaimed(known: map<Port, Drain>, workloads: seq<Listed>, now: int, w: Listed,
                                            port: Port)
    requires forall i, j :: 0 <= i < j < |workloads| ==> workloads[i].uid != workloads[j].uid
    requires w in workloads && port in w.routes && !(port in known && known[port].owner == w.uid)
    requires forall h :: (h, port) in RouteReads(workloads) ==> h == Holder(w.uid, w.ns)
    ensures var (claims, _) := FromWorkloads(known, workloads, now);
            port in claims && claims[port] == Claim(w.uid, w.ns, now)
  {
    var last := |workloads| - 1;
    var before := workloads[..last];
    assert workloads == before + [workloads[last]];
    var (claims, draining) := FromWorkloads(known, before, now);
    FromWorkloadsIn(known, before, now, port);
    FromWorkloadsIn(known, workloads, now, port);
    AllClaimedAt(claims, draining, workloads[last].routes, workloads[last].uid, workloads[last].ns, now, port);
    if w in before {
      RoutesAreClaimed(known, before, now, w, port);
    } else {
      assert w == workloads[last];
      assert forall v :: v in before ==> v.uid != w.uid;
    }
  }

  /** A slice's claim is with its namespace, and every port of one is claimed that doesn't drain for its owner. */
  lemma {:induction false} FromSlicesIn(claims: map<Port, Claim>, draining: map<Port, Drain>, slices: seq<ListedSlice>,
                                        now: int, port: Port)
    ensures var all := FromSlices(claims, draining, slices, now);
            && (port in claims ==> port in all && all[port] == claims[port])
            && (port in all && port !in claims ==> exists h ::
                  && (h, port) in SliceReads(slices) && all[port] == Claim(h.uid, h.ns, now)
                  && !(port in draining && draining[port].owner == h.uid))
            && (forall h :: (h, port) in SliceReads(slices) && !(port in draining && draining[port].owner == h.uid) ==>
                  port in all)
  {
    if slices != [] {
      var last := |slices| - 1;
      var s, before := slices[last], slices[..last];
      FromSlicesIn(claims, draining, before, now, port);
      assert slices == before + [s];
      var made, all := FromSlices(claims, draining, before, now), FromSlices(claims, draining, slices, now);
      if s.owner.Some? {
        AllClaimedAt(made, draining, s.ports, s.owner.value, s.ns, now, port);
      }
      if port in made && port !in claims {
        var h :| (h, port) in SliceReads(before) && made[port] == Claim(h.uid, h.ns, now)
                 && !(port in draining && draining[port].owner == h.uid);
        assert (h, port) in SliceReads(slices);
      } else if port in all && port !in claims {
        assert (Holder(s.owner.value, s.ns), port) in SliceReads(slices);
      }
    }
  }

  /** The holder's port is read, and a merge that has noted the drains read leaves it claimed. */
  ghost predicate IsRead(m: Memory, r: Memory, u: PortsInUse, h: Holder, port: Port) {
    || ((h, port) in RouteReads(u.workloads) && !Drains(m, port, h.uid))
    || ((h, port) in SliceReads(u.slices) && !Drains(r, port, h.uid))
  }

  /** Made since the last load. */
  predicate IsNewer(m: Memory, port: Port) {
    port in m.claims && m.claims[port].at > m.loadedAt
  }

  /**
   * Whatever lists give: every claim is of a holder read with the port, with its namespace, or a newer one as it was.
   */
  lemma MergedClaims(m: Memory, u: PortsInUse, now: int, port: Port)
    ensures var r := Merged(m, u, now);
            port in r.claims ==>
              || (exists h ::
                    && (h, port) in Reads(u)
                    && r.claims[port] == Claim(h.uid, h.ns, now) && !Drains(m, port, h.uid))
              || (IsNewer(m, port) && r.claims[port] == m.claims[port])
  {
    FromWorkloadsIn(m.draining, u.workloads, now, port);
    var (claims, draining) := FromWorkloads(m.draining, u.workloads, now);
    FromSlicesIn(claims, draining, u.slices, now, port);
    var all := FromSlices(claims, draining, u.slices, now);
    if port in claims {
      var h :| (h, port) in RouteReads(u.workloads) && claims[port] == Claim(h.uid, h.ns, now)
               && !Drains(m, port, h.uid);
      assert (h, port) in Reads(u);
    } else if port in all {
      var h :| (h, port) in SliceReads(u.slices) && all[port] == Claim(h.uid, h.ns, now) && !Drains(m, port, h.uid);
      assert (h, port) in Reads(u);
    }
  }

  /** Each workload is listed once, and each port is read for one holder. */
  ghost predicate OneHolderEach(u: PortsInUse) {
    && (forall i, j :: 0 <= i < j < |u.workloads| ==> u.workloads[i].uid != u.workloads[j].uid)
    && (forall g: Holder, h: Holder, p ::
          (g, p) in Reads(u) && (h, p) in Reads(u) ==> g == h)
  }

  /** Such a port is claimed for its holder exactly when a status has it that wasn't draining, or a slice that isn't. */
  lemma MergedHolder(m: Memory, u: PortsInUse, now: int, h: Holder, port: Port)
    requires OneHolderEach(u) && (h, port) in Reads(u)
    ensures var r := Merged(m, u, now);
            if IsRead(m, r, u, h, port) then port in r.claims && r.claims[port] == Claim(h.uid, h.ns, now)
            else if IsNewer(m, port) then port in r.claims && r.claims[port] == m.claims[port]
            else port !in r.claims
  {
    FromWorkloadsIn(m.draining, u.workloads, now, port);
    var (claims, draining) := FromWorkloads(m.draining, u.workloads, now);
    FromSlicesIn(claims, draining, u.slices, now, port);
    if (h, port) in RouteReads(u.workloads) && !Drains(m, port, h.uid) {
      var w :| w in u.workloads && port in w.routes && h == Holder(w.uid, w.ns);
      RoutesAreClaimed(m.draining, u.workloads, now, w, port);
    }
  }

  lemma RecordedIsRead(u: PortsInUse, o: Uid, port: Port)
    requires Hold(o, port) in Recorded(u)
    ensures exists h: Holder :: h.uid == o && (h, port) in Reads(u)
  {
    if w :| w in u.workloads && port in w.routes && w.uid == o {
      assert (Holder(w.uid, w.ns), port) in Reads(u);
    } else {
      var s :| s in u.slices && s.owner == Some(o) && port in s.ports;
      assert (Holder(o, s.ns), port) in Reads(u);
    }
  }

  /**
   * So a namespace's ports after a merge are exactly those read in it, and the newer claims there of what isn't read.
   */
  lemma MergedInNamespace(m: Memory, u: PortsInUse, now: int, ns: string, port: Port)
    requires OneHolderEach(u)
    ensures var r := Merged(m, u, now);
            port in InNamespace(r, ns) <==>
              || (exists h: Holder :: h.ns == ns && IsRead(m, r, u, h, port))
              || (IsNewer(m, port) && m.claims[port].ns == ns && forall h: Holder :: !IsRead(m, r, u, h, port))
  {
    var r := Merged(m, u, now);
    if h: Holder :| (h, port) in Reads(u) {
      MergedHolder(m, u, now, h, port);
      assert forall g :: IsRead(m, r, u, g, port) ==> g == h;
    } else {
      MergedClaims(m, u, now, port);
      MergedHolds(m, u, now);
      forall o
        ensures Hold(o, port) !in Recorded(u)
      {
        if Hold(o, port) in Recorded(u) {
          RecordedIsRead(u, o, port);
          assert false;
        }
      }
    }
  }
}
