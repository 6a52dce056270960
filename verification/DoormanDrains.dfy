/** That a port's drain is honoured by whoever leads, from what statuses note of it. */
module DoormanDrains {
  import opened DoormanProtocol
  import opened Ports
  import opened Times
  import opened Workloads
  import opened Wrappers

  /** When a port a status says was given up may go to another: its drain, less the second statuses round down. */
  function Ends(n: Noted): int {
    n.since + PORT_DRAIN - SECOND
  }

  ghost function OwnerOf(n: Noted): Hold {
    Hold(n.drain.uid, n.drain.port)
  }

  /** A drain a status has, or a reconcile under way would write. */
  ghost predicate IsNoted(s: State, n: Noted) {
    n in s.api.drains || (n.drain.uid in s.work && n in s.work[n.drain.uid].drains)
  }

  ghost predicate Running(s: State, n: Noted) {
    IsNoted(s, n) && s.now < Ends(n)
  }

  /** Until it ends, the port is its owner's in memory: draining long enough, or by a claim the next load keeps. */
  ghost predicate DrainGuarded(m: Memory, n: Noted) {
    && Guards(m, OwnerOf(n))
    && (if Claims(m, n.drain.port, n.drain.uid) then m.claims[n.drain.port].at + PORTS_RELOAD >= n.since + PORT_DRAIN
        else m.draining[n.drain.port].until >= Ends(n))
  }

  /** No drain is noted from the future, and a status rounds its end down by less than a second. */
  ghost predicate Dated(s: State) {
    && (forall p :: p in s.mem.draining ==> s.mem.draining[p].until <= s.now + PORT_DRAIN)
    && (forall n :: IsNoted(s, n) ==> n.since <= s.now && Ends(n) < n.drain.until <= s.now + PORT_DRAIN)
    && (forall r, n :: r in s.loads && n in r.drains ==> Ends(n) < n.drain.until <= s.now + PORT_DRAIN)
  }

  /** While its drain runs, a port isn't in use, or draining, for anyone else. */
  ghost predicate Apart(s: State) {
    && (forall n, h :: Running(s, n) && InUse(s, h) && h.port == n.drain.port ==> h.uid == n.drain.uid)
    && (forall n, o :: Running(s, n) && Running(s, o) && o.drain.port == n.drain.port ==> o.drain.uid == n.drain.uid)
  }

  /** What one status, or one write of it, says of a port: that it's routed, or one drain of it, or nothing. */
  ghost predicate Plain(s: State) {
    && (forall n, o :: n in s.api.drains && o in s.api.drains && OwnerOf(n) == OwnerOf(o) ==> n == o)
    && (forall n :: n in s.api.drains ==> OwnerOf(n) !in s.api.routes)
    && (forall u, n :: u in s.work && n in s.work[u].drains ==>
          n.drain.uid == u && n.drain.port !in s.work[u].routes && (n in s.api.drains || OwnerOf(n) in s.api.routes))
    && (forall u, n, o ::
          u in s.work && n in s.work[u].drains && o in s.work[u].drains && n.drain.port == o.drain.port ==>
          n == o)
  }

  /** What a load a new leader has under way makes of a drain: it has listed it, or the route that was given up. */
  ghost predicate Listed(s: State, r: Reading) {
    && (forall n, o :: n in r.drains && o in r.drains && OwnerOf(n) == OwnerOf(o) ==> n == o)
    && (forall n :: n in r.drains ==> n.drain.uid in r.done.statuses && OwnerOf(n) !in s.api.routes)
    && (forall n, h :: Running(s, n) && h in Seen(r) && h.port == n.drain.port ==> h.uid == n.drain.uid)
    && (forall n :: Running(s, n) && HasStatus(r, n.drain.uid) && n !in r.drains ==>
          OwnerOf(n) in Seen(r) && forall o :: o in r.drains ==> OwnerOf(o) != OwnerOf(n))
  }

  ghost predicate DrainInv(s: State) {
    && Dated(s) && Apart(s) && Plain(s)
    && (s.mem.loaded ==> forall n :: Running(s, n) ==> DrainGuarded(s.mem, n))
    && (!s.mem.loaded ==> forall r :: r in s.loads ==> Listed(s, r))
  }

  /** What a first load makes nothing of: a drain of a port listed first for another, whose owner has no slice of it. */
  ghost predicate PassedOver(u: PortsInUse, d: StatusDrain, called: int) {
    var first := FirstToDrain(u.workloads, d.port, called);
    first.Some? && first.value != d.uid && Hold(d.uid, d.port) !in Recorded(u)
  }

  /** A new leader's first load passes over no drain that is running. */
  ghost predicate PassesOverNone(s: State, a: Action) {
    a.EndRead? && !s.mem.loaded ==> forall n :: Running(s, n) ==> !PassedOver(a.inUse, n.drain, a.read.called)
  }

  /** Guarded drains keep their ports apart from what else is guarded. */
  lemma GuardedApart(s: State)
    requires AllGuarded(s) && forall n :: Running(s, n) ==> DrainGuarded(s.mem, n)
    ensures Apart(s)
  {
  }

  // A call that takes or gives up ports

  /** What a call's status write notes: what the status has, and routes given up, once each. */
  ghost predicate Records(s: State, next: State, uid: Uid, called: int, keep: set<Port>) {
    && called <= s.now && uid !in s.work && uid in next.work
    && next == s.(mem := next.mem, work := s.work[uid := next.work[uid]])
    && next.work[uid].routes == keep
    && next.work[uid].drains == RecordDrains(s.api, next.mem, uid, keep, called, s.now)
  }

  lemma RecordedStayDated(s: State, next: State, uid: Uid, called: int, keep: set<Port>)
    requires Dated(s) && Records(s, next, uid, called, keep)
    requires forall p :: p in next.mem.draining ==> next.mem.draining[p].until <= s.now + PORT_DRAIN
    ensures Dated(next)
  {
    forall n | n in next.work[uid].drains
      ensures n in s.api.drains || (n.drain.until == Seconds(s.now + PORT_DRAIN) &&
                                    n.since == Since(next.mem, uid, n.drain.port, called))
    {
    }
    assert forall n :: IsNoted(next, n) ==> IsNoted(s, n) || n in next.work[uid].drains;
  }

  lemma RecordedStayPlain(s: State, next: State, uid: Uid, called: int, keep: set<Port>)
    requires Plain(s) && Records(s, next, uid, called, keep)
    ensures Plain(next)
  {
    forall n | n in next.work[uid].drains
      ensures n in s.api.drains || OwnerOf(n) in s.api.routes
      ensures n.drain.uid == uid && n.drain.port !in keep
    {
    }
  }

  /** What a drain now running needs of the memory for a call to carry it. */
  lemma RunningCarries(s: State, next: State, met: Memory, uid: Uid, called: int, chosen: set<Port>, n: Noted)
    requires Inv(s) && DrainInv(s) && s.mem.loaded
    requires Moves(s, next, met, uid, called, chosen) && After(s, uid, called)
    requires Running(s, n)
    ensures DrainGuarded(next.mem, n)
  {
    var h := OwnerOf(n);
    assert DrainGuarded(s.mem, n);
    assert Guards(met, h);
    assert Carried(s.mem, next.mem, uid, called, chosen, h);
  }

  /** A route given up drains in the memory from when its status notes. */
  lemma GivenUpCarries(s: State, next: State, met: Memory, uid: Uid, called: int, chosen: set<Port>, n: Noted)
    requires Inv(s) && s.mem.loaded
    requires Moves(s, next, met, uid, called, chosen)
    requires forall p :: Claims(next.mem, p, uid) ==> p in chosen
    requires OwnerOf(n) in s.api.routes && n.drain.uid == uid && n.drain.port !in chosen
    requires n.since == Since(next.mem, uid, n.drain.port, called)
    ensures DrainGuarded(next.mem, n)
  {
    HeldIsMet(s, next, met, uid, called, chosen, OwnerOf(n));
  }

  lemma MoveKeepsDrains(s: State, next: State, met: Memory, uid: Uid, called: int, chosen: set<Port>)
    requires Inv(s) && DrainInv(s) && s.mem.loaded
    requires Moves(s, next, met, uid, called, chosen) && After(s, uid, called)
    requires forall p :: Claims(next.mem, p, uid) ==> p in chosen
    requires next.work[uid].drains == RecordDrains(s.api, next.mem, uid, chosen, called, s.now)
    requires forall p :: p in next.mem.draining ==> next.mem.draining[p].until <= s.now + PORT_DRAIN
    ensures DrainInv(next)
  {
    RecordedStayDated(s, next, uid, called, chosen);
    RecordedStayPlain(s, next, uid, called, chosen);
    MoveKeepsGuards(s, next, met, uid, called, chosen);
    forall n | Running(next, n)
      ensures DrainGuarded(next.mem, n)
    {
      if IsNoted(s, n) {
        RunningCarries(s, next, met, uid, called, chosen, n);
      } else {
        GivenUpCarries(s, next, met, uid, called, chosen, n);
      }
    }
    GuardedApart(next);
  }

  lemma TakePortsKeepsDrains(s: State, holder: Holder, called: int, chosen: set<Port>)
    requires Inv(s) && DrainInv(s)
    requires Enabled(s, TakePorts(holder, called, chosen)) && InTime(s, TakePorts(holder, called, chosen))
    ensures DrainInv(Next(s, TakePorts(holder, called, chosen)))
  {
    var next := Next(s, TakePorts(holder, called, chosen));
    TakePortsMoves(s, holder, called, chosen);
    forall p | Claims(next.mem, p, holder.uid)
      ensures p in chosen
    {
      assert p in Owned(next.mem, holder.uid);
    }
    MoveKeepsDrains(s, next, Expired(s.mem, called), holder.uid, called, chosen);
  }

  lemma GiveUpKeepsDrains(s: State, uid: Uid, called: int)
    requires Inv(s) && DrainInv(s) && Enabled(s, GiveUp(uid, called)) && InTime(s, GiveUp(uid, called))
    ensures DrainInv(Next(s, GiveUp(uid, called)))
  {
    var next := Next(s, GiveUp(uid, called));
    if s.mem.loaded {
      GiveUpMoves(s, uid, called);
      MoveKeepsDrains(s, next, s.mem, uid, called, {});
    } else {
      assert next.mem == FORGOTTEN;
      UnloadedGiveUpKeepsDrains(s, next, uid, called);
    }
  }

  /** What a leader yet to load gives up is routed, in its status and in any load that has listed statuses. */
  lemma RouteListed(s: State, r: Reading, h: Hold)
    requires Inv(s) && !s.mem.loaded && r in s.loads && HasStatus(r, h.uid) && h in s.api.routes
    ensures h in Seen(r)
    ensures forall g :: g in Seen(r) && g.port == h.port ==> g.uid == h.uid
  {
  }

  /** A leader yet to load gives up what a status says, and a load under way has listed the route. */
  lemma UnloadedGiveUpKeepsDrains(s: State, next: State, uid: Uid, called: int)
    requires Inv(s) && DrainInv(s) && !s.mem.loaded && called <= s.now && uid !in s.work && uid in next.work
    requires next == s.(work := s.work[uid := next.work[uid]])
    requires next.work[uid] == Work(called, {}, RecordDrains(s.api, s.mem, uid, {}, called, s.now))
    ensures DrainInv(next)
  {
    RecordedStayDated(s, next, uid, called, {});
    RecordedStayPlain(s, next, uid, called, {});
    forall n | IsNoted(next, n)
      ensures IsNoted(s, n) || OwnerOf(n) in s.api.routes
    {
    }
    UnloadedApart(s, next);
    forall r | r in next.loads
      ensures Listed(next, r)
    {
      assert Listed(s, r);
      forall h | h in s.api.routes && HasStatus(r, h.uid)
        ensures h in Seen(r) && forall g :: g in Seen(r) && g.port == h.port ==> g.uid == h.uid
      {
        RouteListed(s, r, h);
      }
    }
  }

  lemma UnloadedApart(s: State, next: State)
    requires Exclusive(s) && Apart(s) && next.now == s.now
    requires forall n :: IsNoted(next, n) ==> IsNoted(s, n) || OwnerOf(n) in s.api.routes
    requires forall h :: InUse(next, h) ==> InUse(s, h)
    ensures Apart(next)
  {
  }

  /** A step that leaves the memory, notes no drain, and brings nothing new into use. */
  lemma QuietKeepsDrains(s: State, next: State)
    requires Inv(s) && DrainInv(s) && next.mem == s.mem && next.loads == s.loads && next.now >= s.now
    requires forall h :: InUse(next, h) ==> InUse(s, h)
    requires forall n :: IsNoted(next, n) ==> IsNoted(s, n)
    requires Plain(next)
    requires !s.mem.loaded ==> next.api.routes <= s.api.routes
    ensures DrainInv(next)
  {
    if !next.mem.loaded {
      forall r | r in next.loads
        ensures Listed(next, r)
      {
        assert Listed(s, r);
      }
    }
  }

  lemma WriteStatusKeepsDrains(s: State, uid: Uid)
    requires Inv(s) && DrainInv(s) && Enabled(s, WriteStatus(uid))
    ensures DrainInv(Next(s, WriteStatus(uid)))
  {
    var next := Next(s, WriteStatus(uid));
    QuietKeepsDrains(s, next);
  }

  // Loads

  /** Apart from what loads have read, only what is noted and in use counts. */
  lemma SameButLoads(s: State, next: State)
    requires Apart(s) && Plain(s) && next.now == s.now && next.api == s.api && next.work == s.work
    ensures Apart(next) && Plain(next)
    ensures forall r :: Listed(s, r) ==> Listed(next, r)
    ensures forall n :: IsNoted(next, n) <==> IsNoted(s, n)
  {
    assert forall h :: InUse(next, h) <==> InUse(s, h);
    assert forall n :: Running(next, n) <==> Running(s, n);
  }

  /** A listing of statuses has each drain, or the route it is of. */
  lemma StatusesAreListed(s: State, r: Reading, who: set<Uid>)
    requires Apart(s) && Plain(s) && Listed(s, r) && who !! r.done.statuses
    ensures Listed(s, StatusesListed(s.api, r, who))
  {
    var next := StatusesListed(s.api, r, who);
    forall n | Running(s, n) && n.drain.uid in who && n !in next.drains
      ensures OwnerOf(n) in s.api.routes
    {
      assert n.drain.uid in s.work && n in s.work[n.drain.uid].drains;
    }
  }

  lemma SlicesAreListed(s: State, r: Reading, who: set<Uid>)
    requires Apart(s) && Listed(s, r)
    ensures Listed(s, SlicesListed(s.api, r, who))
  {
  }

  lemma LoadKeepsDrains(s: State, next: State, r: Reading)
    requires DrainInv(s) && next == s.(loads := next.loads)
    requires next.loads <= s.loads + {r}
    requires !s.mem.loaded ==> Listed(s, r)
    requires forall n :: n in r.drains ==> Ends(n) < n.drain.until <= s.now + PORT_DRAIN
    ensures DrainInv(next)
  {
    SameButLoads(s, next);
  }

  lemma ListKeepsDrains(s: State, r: Reading, next: Reading, who: set<Uid>)
    requires DrainInv(s) && r in s.loads
    requires (next == StatusesListed(s.api, r, who) && who !! r.done.statuses) || next == SlicesListed(s.api, r, who)
    ensures DrainInv(s.(loads := s.loads - {r} + {next}))
  {
    if !s.mem.loaded {
      assert Listed(s, r);
      if next == SlicesListed(s.api, r, who) {
        SlicesAreListed(s, r, who);
      } else {
        StatusesAreListed(s, r, who);
      }
    }
    assert forall n :: n in next.drains ==> n in r.drains || IsNoted(s, n);
    LoadKeepsDrains(s, s.(loads := s.loads - {r} + {next}), next);
  }

  /** A load of a leader that has loaded before leaves a running drain's port where it is. */
  lemma ReloadKeepsDrain(s: State, t: Timing, r: Reading, u: PortsInUse, n: Noted)
    requires Sane(t) && Prompt(s, t) && Inv(s) && DrainInv(s) && s.mem.loaded
    requires Enabled(s, EndRead(r, u)) && LoadDue(s.mem, r.called) && Running(s, n)
    ensures DrainGuarded(Merged(s.mem, u, r.called), n)
  {
    var m := Merged(s.mem, u, r.called);
    MergedHolds(s.mem, u, r.called);
    assert ReadingHolds(s, r) && DrainGuarded(s.mem, n);
    assert Recorded(u) == Seen(r);
    var p := n.drain.port;
    assert p in m.claims && Hold(m.claims[p].owner, p) in Seen(r) ==>
      Lasts(s.mem, r, Hold(m.claims[p].owner, p));
  }

  /** What a first load finds of a running drain: it noted, or else the route or slice it is of. */
  lemma FirstLoadFinds(s: State, t: Timing, r: Reading, u: PortsInUse, n: Noted)
    requires Sane(t) && Prompt(s, t) && Inv(s) && DrainInv(s) && !s.mem.loaded
    requires Enabled(s, EndRead(r, u)) && Running(s, n)
    ensures var m, p := Merged(s.mem, u, r.called), n.drain.port;
            && (p in m.claims ==> Claims(m, p, n.drain.uid) && OwnerOf(n) in Recorded(u) && m.claims[p].at == r.called)
            && (OwnerOf(n) in Recorded(u) ==> p in m.claims || Drains(m, p, n.drain.uid))
            && (Drains(m, p, n.drain.uid) ==> m.draining[p].until == n.drain.until)
            && (p in m.draining <==> FirstToDrain(u.workloads, p, r.called).Some?)
            && (p in m.draining ==> Some(m.draining[p].owner) == FirstToDrain(u.workloads, p, r.called))
            && (p in m.draining || OwnerOf(n) in Recorded(u))
  {
    var m, p := Merged(s.mem, u, r.called), n.drain.port;
    MergedHolds(s.mem, u, r.called);
    FirstDrains(u.workloads, r.called, p);
    assert Listed(s, r) && Recorded(u) == Seen(r);
    assert p in m.claims ==> Hold(m.claims[p].owner, p) in Seen(r);
    if p in m.draining {
      var o :| o in r.drains && o.drain == StatusDrain(m.draining[p].owner, p, m.draining[p].until);
      assert Drains(m, p, n.drain.uid) ==> OwnerOf(o) == OwnerOf(n);
    }
    if n in r.drains {
      assert n.drain in DrainsRead(u.workloads);
    }
  }

  /** A new leader's first load keeps a running drain exactly when it doesn't pass it over. */
  lemma FirstLoadKeepsDrain(s: State, t: Timing, r: Reading, u: PortsInUse, n: Noted)
    requires Sane(t) && Prompt(s, t) && Inv(s) && DrainInv(s) && !s.mem.loaded
    requires Enabled(s, EndRead(r, u)) && Running(s, n)
    ensures DrainGuarded(Merged(s.mem, u, r.called), n) <==> !PassedOver(u, n.drain, r.called)
  {
    FirstLoadFinds(s, t, r, u, n);
  }

  lemma MergeDates(s: State, r: Reading, u: PortsInUse)
    requires Dated(s) && r in s.loads && Matches(r, u)
    ensures var m := Merged(s.mem, u, r.called);
            forall p :: p in m.draining ==> m.draining[p].until <= s.now + PORT_DRAIN
  {
    MergedHolds(s.mem, u, r.called);
    var m := Merged(s.mem, u, r.called);
    forall p | p in m.draining && p !in s.mem.draining
      ensures m.draining[p].until <= s.now + PORT_DRAIN
    {
      var n :| n in r.drains && n.drain == StatusDrain(m.draining[p].owner, p, m.draining[p].until);
    }
  }

  lemma EndReadKeepsDrains(s: State, t: Timing, r: Reading, u: PortsInUse)
    requires Sane(t) && Prompt(s, t) && Inv(s) && DrainInv(s) && Enabled(s, EndRead(r, u))
    requires PassesOverNone(s, EndRead(r, u))
    ensures DrainInv(Next(s, EndRead(r, u)))
  {
    var next := Next(s, EndRead(r, u));
    SameButLoads(s, next);
    if LoadDue(s.mem, r.called) {
      MergeDates(s, r, u);
      forall n | Running(next, n)
        ensures DrainGuarded(next.mem, n)
      {
        if s.mem.loaded {
          ReloadKeepsDrain(s, t, r, u, n);
        } else {
          FirstLoadKeepsDrain(s, t, r, u, n);
        }
      }
    }
  }

  /** A new load has listed nothing, nor need it but of what there is. */
  lemma BeginReadKeepsDrains(s: State, id: nat, called: int)
    requires DrainInv(s)
    ensures DrainInv(Next(s, BeginRead(id, called)))
  {
    var r := Begun(s.api, id, called);
    forall n | Running(s, n)
      ensures n.drain.uid in r.done.all
    {
      assert n in s.api.drains || OwnerOf(n) in s.api.routes;
    }
    LoadKeepsDrains(s, Next(s, BeginRead(id, called)), r);
  }

  /** A new leader has nothing but what the API server has. */
  lemma CrashKeepsDrains(s: State)
    requires DrainInv(s)
    ensures DrainInv(Next(s, Crash))
  {
  }

  /** Writes to slices, what ends, and time. */
  lemma OtherStepKeepsDrains(s: State, a: Action)
    requires Inv(s) && DrainInv(s) && Enabled(s, a)
    requires a.WriteSlice? || a.DeleteSlice? || a.Tick? || a.Finish? || a.DeleteWorkload?
    ensures DrainInv(Next(s, a))
  {
    QuietKeepsDrains(s, Next(s, a));
  }

  /** Every step keeps what is known of drains. */
  lemma StepKeepsDrains(s: State, t: Timing, a: Action)
    requires Sane(t) && Prompt(s, t) && Inv(s) && DrainInv(s) && Enabled(s, a) && InTime(s, a) && PassesOverNone(s, a)
    ensures DrainInv(Next(s, a))
  {
    match a {
      case TakePorts(holder, called, chosen) => TakePortsKeepsDrains(s, holder, called, chosen);
      case GiveUp(uid, called) => GiveUpKeepsDrains(s, uid, called);
      case WriteStatus(uid) => WriteStatusKeepsDrains(s, uid);
      case ListStatuses(r, who) => ListKeepsDrains(s, r, StatusesListed(s.api, r, who), who);
      case ListSlices(r, who) => ListKeepsDrains(s, r, SlicesListed(s.api, r, who), who);
      case EndRead(r, u) => EndReadKeepsDrains(s, t, r, u);
      case BeginRead(id, called) => BeginReadKeepsDrains(s, id, called);
      case Crash => CrashKeepsDrains(s);
      case _ => OtherStepKeepsDrains(s, a);
    }
  }
}
