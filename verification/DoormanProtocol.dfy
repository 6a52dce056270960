/**
 * The doorman's ports across the leader's memory, workloads' statuses and their slices, each written at its own
 * moment, by reconciles that may fail anywhere and leaders that may stop at any point.
 */
module DoormanProtocol {
  import opened Ports
  import opened Times
  import opened Workloads
  import opened Wrappers

  /**
   * A drain a status notes, and when its port was given up: the reading of the clock the memory's drain counts from.
   */
  datatype Noted = Noted(drain: StatusDrain, since: int)

  /** What the API server has: the ports of statuses' routes, of slices, and those statuses say are draining. */
  datatype Api = Api(routes: set<Hold>, slices: set<Hold>, drains: set<Noted>)

  /** A reconcile under way: when it read the clock, and the routes and drains its status write would leave. */
  datatype Work = Work(called: int, routes: set<Port>, drains: set<Noted>)

  /** The workloads whose statuses, and whose slices, a load has listed, of all there were as it began. */
  datatype Progress = Progress(all: set<Uid>, statuses: set<Uid>, slices: set<Uid>)

  /** A load under way: when its caller read the clock, how far it is, and what it has found. */
  datatype Reading = Reading(id: nat, called: int, done: Progress, routes: set<Hold>, slices: set<Hold>,
                             drains: set<Noted>)

  datatype State = State(now: int, mem: Memory, api: Api, work: map<Uid, Work>, loads: set<Reading>)

  /**
   * How long things take at most, each from its caller reading the clock: acting, a call taking or giving up ports;
   * landing, what is given up leaving its slice and status; loading, a load; work, a whole reconcile.
   */
  datatype Timing = Timing(acting: int, landing: int, loading: int, work: int)

  /** What is given up is off the API server before its drain ends, and no reconcile outlasts two loads. */
  ghost predicate Sane(t: Timing) {
    && 0 < t.acting <= PORT_DRAIN && 0 < t.landing <= PORT_DRAIN
    && 0 < t.work <= PORTS_RELOAD && 0 < t.loading <= PORTS_RELOAD - PORT_DRAIN
  }

  datatype Action =
    | Tick(to: int)
    | TakePorts(holder: Holder, called: int, chosen: set<Port>)
    | GiveUp(uid: Uid, called: int)
    | WriteSlice(uid: Uid, port: Port)
    | DeleteSlice(uid: Uid, port: Port)
    | WriteStatus(uid: Uid)
    | Finish(uid: Uid)
    | BeginRead(id: nat, called: int)
    | ListStatuses(read: Reading, who: set<Uid>)
    | ListSlices(read: Reading, who: set<Uid>)
    | EndRead(read: Reading, inUse: PortsInUse)
    | DeleteWorkload(uid: Uid)
    | Crash

  /** When the port was given up, as the memory has it, or as the call does if that holds nothing. */
  function Since(m: Memory, uid: Uid, port: Port, called: int): int {
    if Drains(m, port, uid) then m.draining[port].until - PORT_DRAIN else called
  }

  ghost function KeptDrains(api: Api, uid: Uid, keep: set<Port>, now: int): set<Noted> {
    set n | n in api.drains && n.drain.uid == uid && now < n.drain.until && n.drain.port !in keep
  }

  ghost function DroppedRoutes(api: Api, uid: Uid, keep: set<Port>, now: int): set<Port> {
    set h | h in api.routes && h.uid == uid && h.port !in keep
         && (forall n :: n in KeptDrains(api, uid, keep, now) ==> n.drain.port != h.port) :: h.port
  }

  /** The drains a status notes once its routes keep only those ports: those not over, and those of routes given up. */
  ghost function RecordDrains(api: Api, m: Memory, uid: Uid, keep: set<Port>, called: int, now: int): set<Noted> {
    KeptDrains(api, uid, keep, now) +
    set p | p in DroppedRoutes(api, uid, keep, now)
      :: Noted(StatusDrain(uid, p, Seconds(now + PORT_DRAIN)), Since(m, uid, p, called))
  }

  /** A reconcile begins once all its workload's status says was given up has been. */
  ghost predicate After(s: State, uid: Uid, called: int) {
    forall n :: n in s.api.drains && n.drain.uid == uid ==> n.since <= called
  }

  ghost predicate Matches(r: Reading, u: PortsInUse) {
    && RouteHolds(u.workloads) == r.routes && SliceHolds(u.slices) == r.slices
    && DrainsRead(u.workloads) == set n | n in r.drains :: n.drain
  }

  ghost predicate Enabled(s: State, a: Action) {
    match a
    case Tick(to) => to >= s.now
    case TakePorts(holder, called, chosen) =>
      && !LoadDue(s.mem, called) && holder.uid !in s.work && called <= s.now && After(s, holder.uid, called)
      && forall p :: p in chosen ==> Free(Expired(s.mem, called), p, holder.uid)
    case GiveUp(uid, called) => uid !in s.work && called <= s.now && After(s, uid, called)
    case WriteSlice(uid, port) => uid in s.work && port in s.work[uid].routes
    case DeleteSlice(_, _) => true
    case WriteStatus(uid) => uid in s.work
    case Finish(uid) => true
    case BeginRead(id, called) =>
      called <= s.now && LoadDue(s.mem, called) && forall r :: r in s.loads ==> r.id != id
    case ListStatuses(r, who) => r in s.loads && who !! r.done.statuses
    case ListSlices(r, who) => r in s.loads && who <= r.done.statuses
    case EndRead(r, u) => r in s.loads && r.done.all <= r.done.statuses * r.done.slices && Matches(r, u)
    case DeleteWorkload(uid) =>
      && uid !in s.work
      && (forall h :: h in s.api.routes + s.api.slices ==> h.uid != uid)
      && (forall n :: n in s.api.drains && n.drain.uid == uid ==> n.drain.until <= s.now)
    case Crash => true
  }

  ghost function Begun(api: Api, id: nat, called: int): Reading {
    var all := (set h | h in api.routes + api.slices :: h.uid) + (set n | n in api.drains :: n.drain.uid);
    Reading(id, called, Progress(all, {}, {}), {}, {}, {})
  }

  /** What a load has once it lists some workloads' statuses: a namespace's, or all. */
  ghost function StatusesListed(api: Api, r: Reading, who: set<Uid>): Reading {
    r.(done := r.done.(statuses := r.done.statuses + who),
       routes := r.routes + (set h | h in api.routes && h.uid in who),
       drains := r.drains + (set n | n in api.drains && n.drain.uid in who))
  }

  ghost function SlicesListed(api: Api, r: Reading, who: set<Uid>): Reading {
    r.(done := r.done.(slices := r.done.slices + who), slices := r.slices + (set h | h in api.slices && h.uid in who))
  }

  ghost function Next(s: State, a: Action): State {
    match a
    case Tick(to) => s.(now := to)
    case TakePorts(holder, called, chosen) =>
      var m := Assigned(Expired(s.mem, called), holder, called, chosen);
      s.(mem := m,
         work := s.work[holder.uid := Work(called, chosen, RecordDrains(s.api, m, holder.uid, chosen, called, s.now))])
    case GiveUp(uid, called) =>
      var m := Released(s.mem, uid, called, {});
      s.(mem := m, work := s.work[uid := Work(called, {}, RecordDrains(s.api, m, uid, {}, called, s.now))])
    case WriteSlice(uid, port) => s.(api := s.api.(slices := s.api.slices + {Hold(uid, port)}))
    case DeleteSlice(uid, port) => s.(api := s.api.(slices := s.api.slices - {Hold(uid, port)}))
    case WriteStatus(uid) =>
      if uid !in s.work then s
      else s.(api := s.api.(
        routes := (set h | h in s.api.routes && h.uid != uid) + (set p | p in s.work[uid].routes :: Hold(uid, p)),
        drains := (set n | n in s.api.drains && n.drain.uid != uid) + s.work[uid].drains))
    case Finish(uid) => s.(work := s.work - {uid})
    case BeginRead(id, called) => s.(loads := s.loads + {Begun(s.api, id, called)})
    case ListStatuses(r, who) => s.(loads := s.loads - {r} + {StatusesListed(s.api, r, who)})
    case ListSlices(r, who) => s.(loads := s.loads - {r} + {SlicesListed(s.api, r, who)})
    case EndRead(r, u) =>
      s.(loads := s.loads - {r}, mem := if LoadDue(s.mem, r.called) then Merged(s.mem, u, r.called) else s.mem)
    case DeleteWorkload(uid) => s.(api := s.api.(drains := set n | n in s.api.drains && n.drain.uid != uid))
    case Crash => s.(mem := FORGOTTEN, work := map[], loads := {})
  }

  /** Its owner has given h's port up, and its drain is over at a reading of the clock. */
  ghost predicate Over(m: Memory, h: Hold, called: int) {
    Drains(m, h.port, h.uid) && !Claims(m, h.port, h.uid) && m.draining[h.port].until <= called
  }

  /** No slice or status has a port that is over. */
  ghost predicate NoneOver(s: State, called: int) {
    forall h :: h in s.api.routes + s.api.slices ==> !Over(s.mem, h, called)
  }

  /** No load under way read the clock after a drain from the call's reading of it is over. */
  ghost predicate Acts(s: State, called: int) {
    forall r :: r in s.loads ==> r.called <= called + PORT_DRAIN
  }

  /**
   * A call that takes ports meets none that is over but still in a slice or status, nor does a load list one; and what
   * a call gives up drains on past the reading of the clock of any load under way.
   */
  ghost predicate InTime(s: State, a: Action) {
    match a
    case TakePorts(_, called, _) => NoneOver(s, called) && Acts(s, called)
    case GiveUp(_, called) => Acts(s, called)
    case ListStatuses(r, _) => NoneOver(s, r.called)
    case ListSlices(r, _) => NoneOver(s, r.called)
    case _ => true
  }

  /** A call acts soon after it reads the clock. */
  ghost predicate ActsOnTime(s: State, t: Timing, a: Action) {
    && (a.TakePorts? ==> s.now < a.called + t.acting)
    && (a.GiveUp? ==> s.now < a.called + t.acting)
  }

  /** What is given up is soon off its workload's slices and status. */
  ghost predicate GivenUpOnTime(s: State, t: Timing) {
    forall h :: h in s.api.routes + s.api.slices && Drains(s.mem, h.port, h.uid) && !Claims(s.mem, h.port, h.uid) ==>
      s.now < s.mem.draining[h.port].until - PORT_DRAIN + t.landing
  }

  /** No load or reconcile under way takes too long. */
  ghost predicate Prompt(s: State, t: Timing) {
    && (forall r :: r in s.loads ==> s.now < r.called + t.loading)
    && (forall u :: u in s.work ==> s.now < s.work[u].called + t.work)
  }

  // The invariant

  ghost function Seen(r: Reading): set<Hold> {
    r.routes + r.slices
  }

  /** h's port is in its owner's hands in h's memory: claimed, or else draining for it. */
  ghost predicate Guards(m: Memory, h: Hold) {
    Claims(m, h.port, h.uid) || (h.port !in m.claims && Drains(m, h.port, h.uid))
  }

  ghost predicate WorkGuarded(s: State, u: Uid, p: Port) {
    && Claims(s.mem, p, u) && u in s.work
    && s.mem.claims[p].at >= s.work[u].called && !LoadDue(s.mem, s.work[u].called)
  }

  /** No port is held, or about to be written, for two workloads. */
  ghost predicate Exclusive(s: State) {
    forall g, h :: InUse(s, g) && InUse(s, h) && g.port == h.port ==> g.uid == h.uid
  }

  ghost predicate InUse(s: State, h: Hold) {
    h in s.api.routes || h in s.api.slices || (h.uid in s.work && h.port in s.work[h.uid].routes)
  }

  /** A load that hasn't read h would still keep it. */
  ghost predicate Fresh(m: Memory, h: Hold) {
    m.loaded && Guards(m, h) && (Claims(m, h.port, h.uid) ==> m.claims[h.port].at > m.loadedAt)
  }

  /** What is read goes on being its owner's for any call that needs no load, until the load that read it ends. */
  ghost predicate Lasts(m: Memory, r: Reading, h: Hold) {
    Guards(m, h) && (!Claims(m, h.port, h.uid) ==> m.draining[h.port].until >= r.called)
  }

  /** The load has listed the workload's status, or it had nothing as the load began. */
  ghost predicate HasStatus(r: Reading, u: Uid) {
    u in r.done.statuses || u !in r.done.all
  }

  ghost predicate HasSlices(r: Reading, u: Uid) {
    HasStatus(r, u) && (u in r.done.slices || u !in r.done.all)
  }

  ghost predicate ReadingHolds(s: State, r: Reading) {
    && (forall g, h :: g in Seen(r) && InUse(s, h) && g.port == h.port ==> g.uid == h.uid)
    && (forall h :: h in s.api.routes && HasStatus(r, h.uid) ==> h in Seen(r) || Fresh(s.mem, h))
    && (forall h :: h in s.api.slices && HasSlices(r, h.uid) ==> h in Seen(r) || Fresh(s.mem, h))
    && (s.mem.loaded ==> forall h :: h in Seen(r) ==> Lasts(s.mem, r, h))
  }

  ghost predicate Unloaded(s: State) {
    s.mem == FORGOTTEN && forall u :: u in s.work ==> s.work[u].routes == {}
  }

  ghost predicate AllGuarded(s: State) {
    && (forall h :: h in s.api.routes || h in s.api.slices ==> Guards(s.mem, h))
    && (forall u, p :: u in s.work && p in s.work[u].routes ==> WorkGuarded(s, u, p))
  }

  ghost predicate Clocked(s: State) {
    && (forall u :: u in s.work ==> s.work[u].called <= s.now)
    && (forall r :: r in s.loads ==> r.called <= s.now && r.done.slices <= r.done.statuses)
  }

  ghost predicate LoadsHold(s: State) {
    forall r :: r in s.loads && LoadDue(s.mem, r.called) ==> ReadingHolds(s, r)
  }

  ghost predicate Inv(s: State) {
    && Exclusive(s)
    && (if s.mem.loaded then AllGuarded(s) else Unloaded(s))
    && Clocked(s)
    && LoadsHold(s)
  }

  /** What is in use is guarded, and one port is guarded for one workload only. */
  lemma GuardedIsExclusive(s: State)
    requires AllGuarded(s)
    ensures Exclusive(s)
    ensures forall h :: InUse(s, h) ==> Guards(s.mem, h)
  {
  }

  /** A claim a reconcile under way made is newer than the last load, whenever another is due. */
  lemma WorkIsFresh(s: State, t: Timing, u: Uid, p: Port, r: Reading)
    requires Sane(t) && Prompt(s, t) && AllGuarded(s) && s.mem.loaded && r.called <= s.now
    requires u in s.work && p in s.work[u].routes && LoadDue(s.mem, r.called)
    ensures Fresh(s.mem, Hold(u, p))
  {
  }

  // A call that takes or gives up ports

  /** How the memory moves for h's port as uid takes exactly the chosen ports, at called. */
  ghost predicate Carried(m: Memory, next: Memory, uid: Uid, called: int, chosen: set<Port>, h: Hold) {
    && Guards(next, h)
    && (h.uid != uid && Claims(m, h.port, h.uid) ==> Claims(next, h.port, h.uid))
    && (h.port in chosen ==> h.uid == uid && Claims(next, h.port, uid) && next.claims[h.port].at == called)
    && (Claims(next, h.port, h.uid) && h.port !in chosen ==>
          Claims(m, h.port, h.uid) && next.claims[h.port].at == m.claims[h.port].at)
    && (!Claims(next, h.port, h.uid) && Claims(m, h.port, h.uid) ==> next.draining[h.port].until == called + PORT_DRAIN)
    && (!Claims(next, h.port, h.uid) && !Claims(m, h.port, h.uid) ==>
          Drains(m, h.port, h.uid) && next.draining[h.port].until == m.draining[h.port].until)
  }

  lemma TakingCarries(m: Memory, holder: Holder, called: int, chosen: set<Port>, h: Hold)
    requires forall p :: p in chosen ==> Free(Expired(m, called), p, holder.uid)
    requires Guards(Expired(m, called), h)
    ensures Carried(m, Assigned(Expired(m, called), holder, called, chosen), holder.uid, called, chosen, h)
  {
  }

  lemma GivingUpCarries(m: Memory, uid: Uid, called: int, h: Hold)
    requires Guards(m, h)
    ensures Carried(m, Released(m, uid, called, {}), uid, called, {}, h)
  {
  }

  /** next is s once uid, at called, has taken exactly the chosen ports, from the memory met. */
  ghost predicate Moves(s: State, next: State, met: Memory, uid: Uid, called: int, chosen: set<Port>) {
    && called <= s.now && uid !in s.work && Acts(s, called)
    && (met == s.mem || (met == Expired(s.mem, called) && !LoadDue(s.mem, called) && NoneOver(s, called)))
    && next.mem.loaded == s.mem.loaded && next.mem.loadedAt == s.mem.loadedAt
    && uid in next.work && next.work[uid].called == called && next.work[uid].routes == chosen
    && next == s.(mem := next.mem, work := s.work[uid := next.work[uid]])
    && (forall p :: p in chosen ==>
          Claims(next.mem, p, uid) && next.mem.claims[p].at == called && !LoadDue(s.mem, called))
    && (forall h :: Guards(met, h) ==> Carried(s.mem, next.mem, uid, called, chosen, h))
  }

  /** What the API server has outlasts the call. */
  lemma HeldIsMet(s: State, next: State, met: Memory, uid: Uid, called: int, chosen: set<Port>, h: Hold)
    requires Moves(s, next, met, uid, called, chosen) && Guards(s.mem, h) && (h in s.api.routes || h in s.api.slices)
    ensures Carried(s.mem, next.mem, uid, called, chosen, h)
  {
    assert h in s.api.routes + s.api.slices;
    assert Guards(met, h);
  }

  lemma MoveKeepsGuards(s: State, next: State, met: Memory, uid: Uid, called: int, chosen: set<Port>)
    requires s.mem.loaded && AllGuarded(s)
    requires Moves(s, next, met, uid, called, chosen)
    ensures AllGuarded(next)
  {
    forall h | h in next.api.routes || h in next.api.slices
      ensures Guards(next.mem, h)
    {
      HeldIsMet(s, next, met, uid, called, chosen, h);
    }
    forall u, p | u in next.work && p in next.work[u].routes
      ensures WorkGuarded(next, u, p)
    {
      if u != uid {
        assert WorkGuarded(s, u, p) && Guards(met, Hold(u, p));
        assert Carried(s.mem, next.mem, uid, called, chosen, Hold(u, p));
      }
    }
  }

  lemma MoveKeepsReading(s: State, next: State, met: Memory, uid: Uid, called: int, chosen: set<Port>, r: Reading)
    requires s.mem.loaded && AllGuarded(s)
    requires Moves(s, next, met, uid, called, chosen)
    requires r in s.loads && r.called <= s.now && LoadDue(s.mem, r.called) && ReadingHolds(s, r)
    ensures ReadingHolds(next, r)
  {
    MoveKeepsGuards(s, next, met, uid, called, chosen);
    GuardedIsExclusive(next);
    forall h | h in Seen(r)
      ensures Lasts(next.mem, r, h)
    {
      assert Lasts(s.mem, r, h);
      assert Guards(met, h);
      assert Carried(s.mem, next.mem, uid, called, chosen, h);
    }
    forall h | Fresh(s.mem, h) && (h in s.api.routes || h in s.api.slices)
      ensures Fresh(next.mem, h)
    {
      HeldIsMet(s, next, met, uid, called, chosen, h);
    }
    assert forall g :: g in Seen(r) ==> Guards(next.mem, g);
  }

  lemma MoveKeepsInv(s: State, next: State, met: Memory, uid: Uid, called: int, chosen: set<Port>)
    requires Inv(s) && s.mem.loaded
    requires Moves(s, next, met, uid, called, chosen)
    ensures Inv(next)
  {
    MoveKeepsGuards(s, next, met, uid, called, chosen);
    GuardedIsExclusive(next);
    forall r | r in next.loads && LoadDue(next.mem, r.called)
      ensures ReadingHolds(next, r)
    {
      MoveKeepsReading(s, next, met, uid, called, chosen, r);
    }
  }

  lemma TakePortsKeepsInv(s: State, holder: Holder, called: int, chosen: set<Port>)
    requires Inv(s) && Enabled(s, TakePorts(holder, called, chosen)) && InTime(s, TakePorts(holder, called, chosen))
    ensures Inv(Next(s, TakePorts(holder, called, chosen)))
  {
    TakePortsMoves(s, holder, called, chosen);
    MoveKeepsInv(s, Next(s, TakePorts(holder, called, chosen)), Expired(s.mem, called), holder.uid, called, chosen);
  }

  lemma TakePortsMoves(s: State, holder: Holder, called: int, chosen: set<Port>)
    requires Enabled(s, TakePorts(holder, called, chosen)) && InTime(s, TakePorts(holder, called, chosen))
    ensures var next := Next(s, TakePorts(holder, called, chosen));
            Moves(s, next, Expired(s.mem, called), holder.uid, called, chosen) && Owned(next.mem, holder.uid) == chosen
  {
    AssignedHolds(Expired(s.mem, called), holder, called, chosen);
    forall h | Guards(Expired(s.mem, called), h)
      ensures Carried(s.mem, Next(s, TakePorts(holder, called, chosen)).mem, holder.uid, called, chosen, h)
    {
      TakingCarries(s.mem, holder, called, chosen, h);
    }
  }

  lemma GiveUpMoves(s: State, uid: Uid, called: int)
    requires Enabled(s, GiveUp(uid, called)) && InTime(s, GiveUp(uid, called)) && s.mem.loaded
    ensures Moves(s, Next(s, GiveUp(uid, called)), s.mem, uid, called, {})
  {
    forall h | Guards(s.mem, h)
      ensures Carried(s.mem, Next(s, GiveUp(uid, called)).mem, uid, called, {}, h)
    {
      GivingUpCarries(s.mem, uid, called, h);
    }
  }

  lemma GiveUpKeepsInv(s: State, uid: Uid, called: int)
    requires Inv(s) && Enabled(s, GiveUp(uid, called)) && InTime(s, GiveUp(uid, called))
    ensures Inv(Next(s, GiveUp(uid, called)))
  {
    var next := Next(s, GiveUp(uid, called));
    if s.mem.loaded {
      GiveUpMoves(s, uid, called);
      MoveKeepsInv(s, next, s.mem, uid, called, {});
    } else {
      assert next.mem == FORGOTTEN;
      QuietKeepsInv(s, next);
    }
  }

  /** A step that leaves the memory and brings nothing new into use. */
  lemma QuietKeepsInv(s: State, next: State)
    requires Inv(s) && next.mem == s.mem && next.loads == s.loads && next.now >= s.now
    requires forall h :: InUse(next, h) ==> InUse(s, h)
    requires next.api.routes <= s.api.routes && next.api.slices <= s.api.slices
    requires forall u :: u in next.work && u in s.work ==> next.work[u] == s.work[u]
    requires forall u :: u in next.work && u !in s.work ==> next.work[u].routes == {} && next.work[u].called <= next.now
    ensures Inv(next)
  {
  }

  /** A reconcile under way writes what it claimed: to slices, or to its status, which then has nothing else. */
  lemma WriteKeepsInv(s: State, next: State, t: Timing)
    requires Sane(t) && Prompt(s, t) && Inv(s)
    requires next == s.(api := next.api)
    requires forall h :: h in next.api.routes ==>
               h in s.api.routes || (h.uid in s.work && h.port in s.work[h.uid].routes)
    requires forall h :: h in next.api.slices ==>
               h in s.api.slices || (h.uid in s.work && h.port in s.work[h.uid].routes)
    ensures Inv(next)
  {
    assert forall h :: InUse(next, h) ==> InUse(s, h);
    if s.mem.loaded {
      forall u, p | u in next.work && p in next.work[u].routes
        ensures WorkGuarded(next, u, p)
      {
        assert WorkGuarded(s, u, p);
      }
      forall h | h in next.api.routes || h in next.api.slices
        ensures Guards(next.mem, h)
      {
        if h !in s.api.routes && h !in s.api.slices {
          assert WorkGuarded(s, h.uid, h.port);
        }
      }
    }
    forall r | r in next.loads && LoadDue(next.mem, r.called)
      ensures ReadingHolds(next, r)
    {
      assert ReadingHolds(s, r);
      forall h: Hold | h.uid in s.work && h.port in s.work[h.uid].routes
        ensures Fresh(s.mem, h)
      {
        WorkIsFresh(s, t, h.uid, h.port, r);
      }
    }
  }

  /** next is r with more listed. */
  ghost predicate Lists(s: State, r: Reading, next: Reading, who: set<Uid>) {
    next == StatusesListed(s.api, r, who) || (next == SlicesListed(s.api, r, who) && who <= r.done.statuses)
  }

  lemma ListingKeepsReading(s: State, r: Reading, next: Reading, who: set<Uid>)
    requires Inv(s) && NoneOver(s, r.called) && r in s.loads && LoadDue(s.mem, r.called) && Lists(s, r, next, who)
    ensures ReadingHolds(s, next)
  {
    assert ReadingHolds(s, r);
    assert forall h :: h in Seen(next) ==> h in Seen(r) || h in s.api.routes || h in s.api.slices;
    if s.mem.loaded {
      forall h | h in s.api.routes || h in s.api.slices
        ensures Lasts(s.mem, r, h)
      {
        assert h in s.api.routes + s.api.slices;
      }
    }
  }

  lemma ListKeepsInv(s: State, r: Reading, next: Reading, who: set<Uid>)
    requires Inv(s) && NoneOver(s, r.called) && r in s.loads && Lists(s, r, next, who)
    ensures Inv(s.(loads := s.loads - {r} + {next}))
  {
    var after := s.(loads := s.loads - {r} + {next});
    if LoadDue(s.mem, r.called) {
      ListingKeepsReading(s, r, next, who);
    }
    forall q | q in after.loads && LoadDue(after.mem, q.called)
      ensures ReadingHolds(after, q)
    {
      if q != next {
        assert ReadingHolds(s, q);
      }
    }
  }

  /** What is in use is guarded by what a load ends with. */
  lemma MergeGuards(s: State, t: Timing, r: Reading, u: PortsInUse, h: Hold)
    requires Sane(t) && Prompt(s, t) && Inv(s) && r in s.loads && LoadDue(s.mem, r.called)
    requires r.done.all <= r.done.statuses * r.done.slices && Matches(r, u) && InUse(s, h)
    ensures Guards(Merged(s.mem, u, r.called), h)
    ensures h.uid in s.work && h.port in s.work[h.uid].routes ==>
              Claims(Merged(s.mem, u, r.called), h.port, h.uid)
  {
    assert ReadingHolds(s, r);
    var m := Merged(s.mem, u, r.called);
    MergedHolds(s.mem, u, r.called);
    assert Recorded(u) == Seen(r);
    assert h in Seen(r) || Fresh(s.mem, h) by {
      if h !in s.api.routes && h !in s.api.slices {
        WorkIsFresh(s, t, h.uid, h.port, r);
      }
    }
    if s.mem.loaded {
      GuardedIsExclusive(s);
      assert Guards(s.mem, h);
    }
    if h.uid in s.work && h.port in s.work[h.uid].routes {
      WorkIsFresh(s, t, h.uid, h.port, r);
      assert WorkGuarded(s, h.uid, h.port);
    }
  }

  lemma EndReadKeepsInv(s: State, t: Timing, r: Reading, u: PortsInUse)
    requires Sane(t) && Prompt(s, t) && Inv(s) && Enabled(s, EndRead(r, u))
    ensures Inv(Next(s, EndRead(r, u)))
  {
    var next := Next(s, EndRead(r, u));
    if LoadDue(s.mem, r.called) {
      var m := Merged(s.mem, u, r.called);
      MergedHolds(s.mem, u, r.called);
      forall h | InUse(next, h)
        ensures Guards(m, h)
      {
        MergeGuards(s, t, r, u, h);
      }
      forall v, p | v in next.work && p in next.work[v].routes
        ensures WorkGuarded(next, v, p)
      {
        MergeGuards(s, t, r, u, Hold(v, p));
        assert WorkGuarded(s, v, p);
      }
      GuardedIsExclusive(next);
      assert forall q :: q in next.loads ==> !LoadDue(next.mem, q.called);
    } else {
      forall q | q in next.loads && LoadDue(next.mem, q.called)
        ensures ReadingHolds(next, q)
      {
        assert ReadingHolds(s, q);
      }
      if s.mem.loaded {
        forall v, p | v in next.work && p in next.work[v].routes
          ensures WorkGuarded(next, v, p)
        {
          assert WorkGuarded(s, v, p);
        }
      }
    }
  }

  lemma BeginReadKeepsInv(s: State, id: nat, called: int)
    requires Inv(s) && Enabled(s, BeginRead(id, called))
    ensures Inv(Next(s, BeginRead(id, called)))
  {
  }

  /** Every step keeps the invariant, when no load or reconcile takes too long and what it meets is in time. */
  lemma StepKeepsInv(s: State, t: Timing, a: Action)
    requires Sane(t) && Prompt(s, t) && Inv(s) && Enabled(s, a) && InTime(s, a)
    ensures Inv(Next(s, a))
  {
    var next := Next(s, a);
    match a {
      case TakePorts(holder, called, chosen) => TakePortsKeepsInv(s, holder, called, chosen);
      case GiveUp(uid, called) => GiveUpKeepsInv(s, uid, called);
      case WriteSlice(_, _) => WriteKeepsInv(s, next, t);
      case WriteStatus(_) => WriteKeepsInv(s, next, t);
      case BeginRead(id, called) => BeginReadKeepsInv(s, id, called);
      case ListStatuses(r, who) => ListKeepsInv(s, r, StatusesListed(s.api, r, who), who);
      case ListSlices(r, who) => ListKeepsInv(s, r, SlicesListed(s.api, r, who), who);
      case EndRead(r, u) => EndReadKeepsInv(s, t, r, u);
      case Crash =>
      case Tick(_) => QuietKeepsInv(s, next);
      case DeleteSlice(_, _) => QuietKeepsInv(s, next);
      case Finish(_) => QuietKeepsInv(s, next);
      case DeleteWorkload(_) => QuietKeepsInv(s, next);
    }
  }

  /** What lands on time is in time for any call: its drain runs from the call that gave it up. */
  lemma OnTimeIsInTime(s: State, t: Timing, a: Action)
    requires Sane(t) && GivenUpOnTime(s, t) && ActsOnTime(s, t, a) && Clocked(s) && Enabled(s, a)
    ensures InTime(s, a)
  {
  }

  // What a call that comes too soon does

  /**
   * A call that takes ports has them shared exactly when it takes one that is over and that another workload's slice
   * or status still has.
   */
  lemma SharesOnlyWhatIsOver(s: State, holder: Holder, called: int, chosen: set<Port>)
    requires Inv(s) && Enabled(s, TakePorts(holder, called, chosen))
    ensures !Exclusive(Next(s, TakePorts(holder, called, chosen))) <==>
              exists h :: h in s.api.routes + s.api.slices && h.port in chosen && h.uid != holder.uid
                && Over(s.mem, h, called)
  {
    var next := Next(s, TakePorts(holder, called, chosen));
    forall h | h in s.api.routes + s.api.slices && h.port in chosen && h.uid != holder.uid
      ensures Over(s.mem, h, called) && InUse(next, h) && InUse(next, Hold(holder.uid, h.port))
    {
      assert Guards(s.mem, h);
    }
    if g, h :| InUse(next, g) && InUse(next, h) && g.port == h.port && g.uid != h.uid {
      var own, other := if g.uid == holder.uid then g else h, if g.uid == holder.uid then h else g;
      TakenFromOther(s, next, holder, called, chosen, own, other);
    }
  }

  lemma TakenFromOther(s: State, next: State, holder: Holder, called: int, chosen: set<Port>, own: Hold, other: Hold)
    requires Inv(s) && Enabled(s, TakePorts(holder, called, chosen))
             && next == Next(s, TakePorts(holder, called, chosen))
    requires InUse(next, own) && InUse(next, other) && own.port == other.port && other.uid != own.uid
             && other.uid != holder.uid
    ensures own.port in chosen && other in s.api.routes + s.api.slices
  {
    assert InUse(s, other);
    assert InUse(s, own) ==> own.uid == other.uid;
    assert Free(Expired(s.mem, called), own.port, holder.uid);
    assert other.uid in s.work && other.port in s.work[other.uid].routes ==> WorkGuarded(s, other.uid, other.port);
  }

  /** And any workload may be given one that is over: nothing in the memory says it is another's. */
  lemma OverIsTaken(s: State, h: Hold, holder: Holder, called: int)
    requires Inv(s) && h in s.api.routes + s.api.slices && s.mem.loaded
    requires called <= s.now && !LoadDue(s.mem, called)
    requires holder.uid != h.uid && holder.uid !in s.work && After(s, holder.uid, called)
    ensures Enabled(s, TakePorts(holder, called, {h.port})) <==> Over(s.mem, h, called)
  {
    assert Guards(s.mem, h);
  }
}
