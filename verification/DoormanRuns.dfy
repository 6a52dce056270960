/** What holds of every run of the doorman's port protocol, and why its timing hypotheses are needed. */
module DoormanRuns {
  import opened DoormanProtocol
  import opened DoormanDrains
  import opened Ports
  import opened Times
  import opened Workloads
  import opened Wrappers

  /** A new leader, and what the API server has, which may be nothing. */
  ghost predicate Starts(s: State) {
    && s.mem == FORGOTTEN && s.work == map[] && s.loads == {}
    && Exclusive(s) && Dated(s) && Apart(s) && Plain(s)
  }

  ghost function Ran(s: State, actions: seq<Action>): State
    decreases |actions|
  {
    if actions == [] then s else Ran(Next(s, actions[0]), actions[1..])
  }

  /** Each action can be taken when it is, and no load or reconcile takes too long. */
  ghost predicate IsRun(s: State, t: Timing, actions: seq<Action>)
    decreases |actions|
  {
    actions != [] ==>
      Prompt(s, t) && Enabled(s, actions[0]) && IsRun(Next(s, actions[0]), t, actions[1..])
  }

  /** No call or listing comes so late that a port is over and still in a slice or status. */
  ghost predicate StaysInTime(s: State, actions: seq<Action>)
    decreases |actions|
  {
    actions != [] ==> InTime(s, actions[0]) && StaysInTime(Next(s, actions[0]), actions[1..])
  }

  /** All along, calls act and what is given up leaves the API server on time. */
  ghost predicate IsOnTime(s: State, t: Timing, actions: seq<Action>)
    decreases |actions|
  {
    actions != [] ==>
      GivenUpOnTime(s, t) && ActsOnTime(s, t, actions[0]) && IsOnTime(Next(s, actions[0]), t, actions[1..])
  }

  /** No new leader's first load passes over a running drain. */
  ghost predicate NeverPassesOver(s: State, actions: seq<Action>)
    decreases |actions|
  {
    actions != [] ==> PassesOverNone(s, actions[0]) && NeverPassesOver(Next(s, actions[0]), actions[1..])
  }

  lemma {:induction false} RunKeepsInv(s: State, t: Timing, actions: seq<Action>)
    requires Sane(t) && Inv(s) && IsRun(s, t, actions) && StaysInTime(s, actions)
    ensures Inv(Ran(s, actions))
    decreases |actions|
  {
    if actions != [] {
      StepKeepsInv(s, t, actions[0]);
      RunKeepsInv(Next(s, actions[0]), t, actions[1..]);
    }
  }

  lemma {:induction false} RunKeepsDrains(s: State, t: Timing, actions: seq<Action>)
    requires Sane(t) && Inv(s) && DrainInv(s)
    requires IsRun(s, t, actions) && StaysInTime(s, actions) && NeverPassesOver(s, actions)
    ensures DrainInv(Ran(s, actions))
    decreases |actions|
  {
    if actions != [] {
      StepKeepsInv(s, t, actions[0]);
      StepKeepsDrains(s, t, actions[0]);
      RunKeepsDrains(Next(s, actions[0]), t, actions[1..]);
    }
  }

  /** Landing within portDrain of the call that gave a port up is in time for every call and load. */
  lemma {:induction false} OnTimeStaysInTime(s: State, t: Timing, actions: seq<Action>)
    requires Sane(t) && Inv(s) && IsRun(s, t, actions) && IsOnTime(s, t, actions)
    ensures StaysInTime(s, actions)
    decreases |actions|
  {
    if actions != [] {
      OnTimeIsInTime(s, t, actions[0]);
      StepKeepsInv(s, t, actions[0]);
      OnTimeStaysInTime(Next(s, actions[0]), t, actions[1..]);
    }
  }

  lemma StartsHold(s: State)
    requires Starts(s)
    ensures Inv(s) && DrainInv(s)
  {
  }

  /**
   * However leaders, reconciles, loads and failures interleave, no port is in two workloads' statuses, slices or
   * reconciles at once, and what is in use is guarded by the memory of a leader that has loaded.
   */
  lemma PortsStayExclusive(s: State, t: Timing, actions: seq<Action>)
    requires Sane(t) && Starts(s) && IsRun(s, t, actions)
    requires StaysInTime(s, actions) || IsOnTime(s, t, actions)
    ensures Exclusive(Ran(s, actions))
    ensures var r := Ran(s, actions); r.mem.loaded ==> forall h :: InUse(r, h) ==> Guards(r.mem, h)
  {
    StartsHold(s);
    if IsOnTime(s, t, actions) {
      OnTimeStaysInTime(s, t, actions);
    }
    RunKeepsInv(s, t, actions);
    if Ran(s, actions).mem.loaded {
      GuardedIsExclusive(Ran(s, actions));
    }
  }

  /**
   * Being in time is what it takes: after any run that was, a call has a port shared exactly when it takes one that is
   * over and that another's slice or status still has; and a held port may be given to another exactly when it's over.
   */
  lemma SharedExactlyWhenOver(s: State, t: Timing, actions: seq<Action>, holder: Holder, called: int, h: Hold)
    requires Sane(t) && Starts(s) && IsRun(s, t, actions) && StaysInTime(s, actions)
    ensures var r := Ran(s, actions);
            && (forall chosen :: Enabled(r, TakePorts(holder, called, chosen)) ==>
                  (!Exclusive(Next(r, TakePorts(holder, called, chosen))) <==>
                     exists g :: g in r.api.routes + r.api.slices && g.port in chosen && g.uid != holder.uid &&
                                 Over(r.mem, g, called)))
            && (h in r.api.routes + r.api.slices && r.mem.loaded && called <= r.now && !LoadDue(r.mem, called) &&
                h.uid != holder.uid && holder.uid !in r.work && After(r, holder.uid, called) ==>
                  (Enabled(r, TakePorts(holder, called, {h.port})) <==> Over(r.mem, h, called)))
  {
    StartsHold(s);
    RunKeepsInv(s, t, actions);
    var r := Ran(s, actions);
    forall chosen | Enabled(r, TakePorts(holder, called, chosen))
      ensures !Exclusive(Next(r, TakePorts(holder, called, chosen))) <==>
                exists g :: g in r.api.routes + r.api.slices && g.port in chosen && g.uid != holder.uid
                  && Over(r.mem, g, called)
    {
      SharesOnlyWhatIsOver(r, holder, called, chosen);
    }
    if h in r.api.routes + r.api.slices && r.mem.loaded && called <= r.now && !LoadDue(r.mem, called) &&
       h.uid != holder.uid && holder.uid !in r.work && After(r, holder.uid, called)
    {
      OverIsTaken(r, h, holder, called);
    }
  }

  /** h is held, or its port still drains from it, as far as the API server and the reconciles under way say. */
  ghost predicate Holding(s: State, h: Hold) {
    InUse(s, h) || exists n :: Running(s, n) && OwnerOf(n) == h
  }

  lemma TakesOnlyFreePorts(s: State, holder: Holder, called: int, chosen: set<Port>, h: Hold)
    requires Inv(s) && DrainInv(s)
    requires Enabled(s, TakePorts(holder, called, chosen)) && InTime(s, TakePorts(holder, called, chosen))
    requires h.port in chosen && Holding(s, h)
    ensures h.uid == holder.uid
  {
    assert h in s.api.routes + s.api.slices ==> !Over(s.mem, h, called);
  }

  /** A workload is only ever given ports that no other holds, and that don't drain from another. */
  lemma GivesOnlyFreePorts(s: State, t: Timing, actions: seq<Action>, holder: Holder, called: int, chosen: set<Port>,
                           h: Hold)
    requires Sane(t) && Starts(s)
    requires IsRun(s, t, actions) && StaysInTime(s, actions) && NeverPassesOver(s, actions)
    requires Enabled(Ran(s, actions), TakePorts(holder, called, chosen))
    requires InTime(Ran(s, actions), TakePorts(holder, called, chosen))
    requires h.port in chosen && Holding(Ran(s, actions), h)
    ensures h.uid == holder.uid
  {
    StartsHold(s);
    RunKeepsInv(s, t, actions);
    RunKeepsDrains(s, t, actions);
    TakesOnlyFreePorts(Ran(s, actions), holder, called, chosen, h);
  }

  /** And a new leader's load that ends such a run loses a running drain exactly when it passes it over. */
  lemma LostExactlyWhenPassedOver(s: State, t: Timing, actions: seq<Action>, r: Reading, u: PortsInUse, n: Noted)
    requires Sane(t) && Starts(s)
    requires IsRun(s, t, actions) && StaysInTime(s, actions) && NeverPassesOver(s, actions)
    requires var end := Ran(s, actions);
             !end.mem.loaded && Prompt(end, t) && Enabled(end, EndRead(r, u)) && Running(end, n)
    ensures DrainGuarded(Next(Ran(s, actions), EndRead(r, u)).mem, n) <==> !PassedOver(u, n.drain, r.called)
  {
    StartsHold(s);
    RunKeepsInv(s, t, actions);
    RunKeepsDrains(s, t, actions);
    FirstLoadKeepsDrain(Ran(s, actions), t, r, u, n);
  }

  // Runs that break the hypotheses

  /** A run in time whose first loads pass nothing over. */
  ghost predicate GoesWell(s: State, t: Timing, actions: seq<Action>) {
    IsRun(s, t, actions) && StaysInTime(s, actions) && NeverPassesOver(s, actions)
  }

  lemma StepGoesWell(s: State, t: Timing, a: Action, rest: seq<Action>)
    requires Prompt(s, t) && Enabled(s, a) && InTime(s, a) && PassesOverNone(s, a) && GoesWell(Next(s, a), t, rest)
    ensures GoesWell(s, t, [a] + rest) && Ran(s, [a] + rest) == Ran(Next(s, a), rest)
  {
  }

  lemma {:induction false} RunsJoin(s: State, t: Timing, first: seq<Action>, rest: seq<Action>)
    requires GoesWell(s, t, first)
    ensures Ran(s, first + rest) == Ran(Ran(s, first), rest)
    ensures IsRun(Ran(s, first), t, rest) ==> IsRun(s, t, first + rest)
    ensures GoesWell(Ran(s, first), t, rest) ==> GoesWell(s, t, first + rest)
    decreases |first|
  {
    if first == [] {
      assert first + rest == rest;
    } else {
      RunsJoin(Next(s, first[0]), t, first[1..], rest);
      assert (first + rest)[1..] == first[1..] + rest;
    }
  }

  /** A leader with nothing under way, that needs no load. */
  ghost predicate Calm(s: State) {
    s.mem.loaded && !LoadDue(s.mem, s.now) && s.loads == {} && forall u :: u !in s.work
  }

  ghost predicate NoDrainsOf(api: Api, uid: Uid) {
    forall n :: n in api.drains ==> n.drain.uid != uid
  }

  ghost function Nexts(s: State, a: Action, b: Action, c: Action): State {
    Next(Next(Next(s, a), b), c)
  }

  lemma StepsGoWell(s: State, t: Timing, a: Action, b: Action, c: Action)
    requires Prompt(s, t) && Enabled(s, a) && InTime(s, a) && PassesOverNone(s, a)
    requires var s1 := Next(s, a); Prompt(s1, t) && Enabled(s1, b) && InTime(s1, b) && PassesOverNone(s1, b)
    requires var s2 := Next(Next(s, a), b); Prompt(s2, t) && Enabled(s2, c) && InTime(s2, c) && PassesOverNone(s2, c)
    ensures GoesWell(s, t, [a, b, c]) && Ran(s, [a, b, c]) == Nexts(s, a, b, c)
  {
    var s1 := Next(s, a);
    var s2 := Next(s1, b);
    StepGoesWell(s2, t, c, []);
    StepGoesWell(s1, t, b, [c]);
    StepGoesWell(s, t, a, [b, c]);
    assert [a] + [b, c] == [a, b, c] && [b] + [c] == [b, c] && [c] + [] == [c];
  }

  ghost function Takes(s: State, h: Hold): Action {
    TakePorts(Holder(h.uid, ""), s.now, {h.port})
  }

  /** A workload with no route can take a port. */
  ghost predicate MayTake(s: State, h: Hold) {
    && Calm(s) && NoneOver(s, s.now) && Free(Expired(s.mem, s.now), h.port, h.uid)
    && NoDrainsOf(s.api, h.uid) && forall g :: g in s.api.routes ==> g.uid != h.uid
  }

  lemma TakingHolds(s: State, h: Hold)
    requires MayTake(s, h)
    ensures var r := Nexts(s, Takes(s, h), WriteStatus(h.uid), WriteSlice(h.uid, h.port)).(work := s.work);
            && r.now == s.now && r.api == Api(s.api.routes + {h}, s.api.slices + {h}, s.api.drains)
               && r.loads == s.loads
            && r.mem.loaded && Claims(r.mem, h.port, h.uid) && h.port !in r.mem.draining
               && r.mem.loadedAt == s.mem.loadedAt
  {
    var s1 := Next(s, Takes(s, h));
    assert s1.work[h.uid].drains == {};
    assert Next(s1, WriteStatus(h.uid)).api.routes == s.api.routes + {h};
  }

  /** A workload with no route takes a port, and writes its status and its slice. */
  lemma Taken(t: Timing, s: State, h: Hold) returns (actions: seq<Action>)
    requires Sane(t) && MayTake(s, h)
    ensures GoesWell(s, t, actions)
    ensures var r := Ran(s, actions);
            && Calm(r) && r.now == s.now && r.api == Api(s.api.routes + {h}, s.api.slices + {h}, s.api.drains)
            && Claims(r.mem, h.port, h.uid) && h.port !in r.mem.draining && r.mem.loadedAt == s.mem.loadedAt
  {
    var take, write, slice := Takes(s, h), WriteStatus(h.uid), WriteSlice(h.uid, h.port);
    StepsGoWell(s, t, take, write, slice);
    TakingHolds(s, h);
    Finished(t, s, Nexts(s, take, write, slice), [take, write, slice], h.uid);
    actions := [take, write, slice] + [Finish(h.uid)];
  }

  /** The reconcile ends. */
  lemma Finished(t: Timing, s: State, r: State, before: seq<Action>, uid: Uid)
    requires GoesWell(s, t, before) && r == Ran(s, before) && Prompt(r, t)
    ensures GoesWell(s, t, before + [Finish(uid)])
    ensures Ran(s, before + [Finish(uid)]) == r.(work := r.work - {uid})
  {
    StepGoesWell(r, t, Finish(uid), []);
    assert [Finish(uid)] + [] == [Finish(uid)];
    RunsJoin(s, t, before, [Finish(uid)]);
  }

  /** What a status notes of a port its workload gives up, reading the clock at called and writing now. */
  function GivenUp(h: Hold, called: int, now: int): Noted {
    Noted(StatusDrain(h.uid, h.port, Seconds(now + PORT_DRAIN)), called)
  }

  ghost predicate MayDrop(s: State, h: Hold, called: int) {
    && Calm(s) && NoneOver(s, called) && called <= s.now && !LoadDue(s.mem, called)
    && Claims(s.mem, h.port, h.uid) && NoDrainsOf(s.api, h.uid)
    && h in s.api.routes && forall g :: g in s.api.routes && g.uid == h.uid ==> g == h
  }

  lemma DroppingDrains(s: State, h: Hold, called: int)
    requires MayDrop(s, h, called)
    ensures var r := Next(Next(s, TakePorts(Holder(h.uid, ""), called, {})), WriteStatus(h.uid)).(work := s.work);
            && r.now == s.now && r.mem.loaded && r.mem.loadedAt == s.mem.loadedAt && r.loads == s.loads
            && r.api == Api(s.api.routes - {h}, s.api.slices, s.api.drains + {GivenUp(h, called, s.now)})
            && h.port !in r.mem.claims && Drains(r.mem, h.port, h.uid)
               && r.mem.draining[h.port].until == called + PORT_DRAIN
  {
    var s1 := Next(s, TakePorts(Holder(h.uid, ""), called, {}));
    assert DroppedRoutes(s.api, h.uid, {}, s.now) == {h.port};
    assert s1.work[h.uid].drains == {GivenUp(h, called, s.now)};
    assert Next(s1, WriteStatus(h.uid)).api.routes == s.api.routes - {h};
  }

  /** It gives the port up, and writes its status. */
  lemma Dropped(t: Timing, s: State, h: Hold, called: int) returns (actions: seq<Action>)
    requires Sane(t) && MayDrop(s, h, called) && s.now < called + t.work
    ensures GoesWell(s, t, actions)
    ensures var r := Ran(s, actions);
            && Calm(r) && r.now == s.now && r.mem.loadedAt == s.mem.loadedAt
            && r.api == Api(s.api.routes - {h}, s.api.slices, s.api.drains + {GivenUp(h, called, s.now)})
            && h.port !in r.mem.claims && Drains(r.mem, h.port, h.uid)
               && r.mem.draining[h.port].until == called + PORT_DRAIN
  {
    var drop, write := TakePorts(Holder(h.uid, ""), called, {}), WriteStatus(h.uid);
    StepsGoWell(s, t, drop, write, Finish(h.uid));
    DroppingDrains(s, h, called);
    actions := [drop, write, Finish(h.uid)];
  }

  /** And its slice goes. */
  lemma SliceDeleted(t: Timing, s: State, h: Hold)
    requires Sane(t) && Calm(s)
    ensures GoesWell(s, t, [DeleteSlice(h.uid, h.port)])
    ensures Ran(s, [DeleteSlice(h.uid, h.port)]) == s.(api := s.api.(slices := s.api.slices - {h}))
  {
    StepGoesWell(s, t, DeleteSlice(h.uid, h.port), []);
  }

  lemma Waited(t: Timing, s: State, to: int)
    requires Sane(t) && Calm(s) && s.now <= to
    ensures GoesWell(s, t, [Tick(to)]) && Ran(s, [Tick(to)]) == s.(now := to)
  {
    StepGoesWell(s, t, Tick(to), []);
  }

  /** It takes the port back, while it drains, and writes its slice; and the leader stops. */
  lemma RetakenAndLost(t: Timing, s: State, h: Hold) returns (actions: seq<Action>)
    requires Sane(t) && Calm(s) && NoneOver(s, s.now) && Free(Expired(s.mem, s.now), h.port, h.uid)
    requires After(s, h.uid, s.now)
    ensures GoesWell(s, t, actions)
    ensures Ran(s, actions) == NewLeader(s.now, s.api.(slices := s.api.slices + {h}), FORGOTTEN)
  {
    var take := TakePorts(Holder(h.uid, ""), s.now, {h.port});
    var s1 := Next(s, take);
    var s2 := Next(s1, WriteSlice(h.uid, h.port));
    StepGoesWell(s2, t, Crash, []);
    StepGoesWell(s1, t, WriteSlice(h.uid, h.port), [Crash]);
    StepGoesWell(s, t, take, [WriteSlice(h.uid, h.port), Crash]);
    actions := [take] + [WriteSlice(h.uid, h.port), Crash];
  }

  lemma Crashed(t: Timing, s: State)
    requires Sane(t) && Calm(s)
    ensures GoesWell(s, t, [Crash]) && Ran(s, [Crash]) == NewLeader(s.now, s.api, FORGOTTEN)
  {
    StepGoesWell(s, t, Crash, []);
  }

  ghost function NewLeader(now: int, api: Api, mem: Memory): State {
    State(now, mem, api, map[], {})
  }

  ghost function AllRead(now: int, api: Api): Reading {
    var all := Begun(api, 0, now).done.all;
    Reading(0, now, Progress(all, all, all), api.routes, api.slices, api.drains)
  }

  /** A new leader whose load has got so far. */
  ghost function Loading(now: int, api: Api, r: Reading): State {
    NewLeader(now, api, FORGOTTEN).(loads := {r})
  }

  lemma LoadingGoesOn(t: Timing, now: int, api: Api, r: Reading, a: Action)
    requires Sane(t) && r.called == now
    requires (a == ListStatuses(r, r.done.all) && r.done.statuses == {}) ||
             (a == ListSlices(r, r.done.all) && r.done.all <= r.done.statuses)
    ensures var s := Loading(now, api, r);
            && Prompt(s, t) && Enabled(s, a) && InTime(s, a) && PassesOverNone(s, a)
            && Next(s, a) == Loading(now, api, if a.ListStatuses? then StatusesListed(api, r, r.done.all)
                                               else SlicesListed(api, r, r.done.all))
  {
  }

  lemma AllIsRead(now: int, api: Api)
    ensures var r := Begun(api, 0, now);
            SlicesListed(api, StatusesListed(api, r, r.done.all), r.done.all) == AllRead(now, api)
  {
    var r := Begun(api, 0, now);
    assert StatusesListed(api, r, r.done.all).routes == api.routes
           && StatusesListed(api, r, r.done.all).drains == api.drains;
  }

  /** A new leader loads all there is, and finds u. */
  lemma FirstLoaded(t: Timing, now: int, api: Api, u: PortsInUse) returns (actions: seq<Action>)
    requires Sane(t) && Matches(AllRead(now, api), u)
    ensures var s := NewLeader(now, api, FORGOTTEN);
            && IsRun(s, t, actions) && StaysInTime(s, actions)
            && ((forall n :: n in api.drains && now < Ends(n) ==> !PassedOver(u, n.drain, now)) ==>
                  GoesWell(s, t, actions))
            && Ran(s, actions) == NewLeader(now, api, Merged(FORGOTTEN, u, now))
  {
    var s, r0 := NewLeader(now, api, FORGOTTEN), Begun(api, 0, now);
    var all := r0.done.all;
    var r1, r2 := StatusesListed(api, r0, all), AllRead(now, api);
    var s3 := Loading(now, api, r2);
    actions := [BeginRead(0, now), ListStatuses(r0, all), ListSlices(r1, all), EndRead(r2, u)];
    LoadingGoesOn(t, now, api, r0, actions[1]);
    LoadingGoesOn(t, now, api, r1, actions[2]);
    AllIsRead(now, api);
    LoadSteps(t, s, Loading(now, api, r0), Loading(now, api, r1), s3, actions);
    assert Next(s3, actions[3]).loads == {};
    assert forall n :: Running(s3, n) <==> n in api.drains && now < Ends(n);
  }

  lemma LoadSteps(t: Timing, s: State, s1: State, s2: State, s3: State, actions: seq<Action>)
    requires |actions| == 4
    requires Next(s, actions[0]) == s1 && Next(s1, actions[1]) == s2 && Next(s2, actions[2]) == s3
    requires Prompt(s, t) && Prompt(s1, t) && Prompt(s2, t) && Prompt(s3, t)
    requires Enabled(s, actions[0]) && Enabled(s1, actions[1]) && Enabled(s2, actions[2]) && Enabled(s3, actions[3])
    requires InTime(s, actions[0]) && InTime(s1, actions[1]) && InTime(s2, actions[2]) && InTime(s3, actions[3])
    requires PassesOverNone(s, actions[0]) && PassesOverNone(s1, actions[1]) && PassesOverNone(s2, actions[2])
    ensures IsRun(s, t, actions) && StaysInTime(s, actions) && Ran(s, actions) == Next(s3, actions[3])
    ensures PassesOverNone(s3, actions[3]) ==> GoesWell(s, t, actions)
  {
    assert actions[1..][1..][1..][1..] == [];
    assert actions[1..][1..][1..][0] == actions[3] && actions[1..][1..][0] == actions[2]
           && actions[1..][0] == actions[1];
    var a3, a2, a1 := actions[1..][1..][1..], actions[1..][1..], actions[1..];
    assert IsRun(s3, t, a3) && IsRun(s2, t, a2) && IsRun(s1, t, a1);
    assert StaysInTime(s3, a3) && StaysInTime(s2, a2) && StaysInTime(s1, a1);
    assert Ran(s3, a3) == Next(s3, actions[3]) && Ran(s2, a2) == Ran(s3, a3) && Ran(s1, a1) == Ran(s2, a2);
    assert PassesOverNone(s3, actions[3]) ==>
             NeverPassesOver(s3, a3) && NeverPassesOver(s2, a2) && NeverPassesOver(s1, a1);
  }

  // From nothing

  const NOTHING := Api({}, {}, {})

  /** A leader that has loaded nothing may give any port to any workload. */
  lemma NothingLoaded(t: Timing) returns (actions: seq<Action>)
    requires Sane(t)
    ensures var s := NewLeader(0, NOTHING, FORGOTTEN);
            Starts(s) && GoesWell(s, t, actions) && Ran(s, actions) == NewLeader(0, NOTHING, Ran(s, actions).mem)
    ensures var r := Ran(NewLeader(0, NOTHING, FORGOTTEN), actions); r.mem.loadedAt == 0 && forall h :: MayTake(r, h)
  {
    var u := PortsInUse([], []);
    actions := FirstLoaded(t, 0, NOTHING, u);
    MergedHolds(FORGOTTEN, u, 0);
  }

  /** A port's first holder has it in its slice and status, from an API server with nothing. */
  lemma TakenFirst(t: Timing, h: Hold) returns (actions: seq<Action>)
    requires Sane(t)
    ensures var s := NewLeader(0, NOTHING, FORGOTTEN);
            && Starts(s) && GoesWell(s, t, actions)
            && var r := Ran(s, actions);
            && Calm(r) && r.now == 0 && r.mem.loadedAt == 0 && r.api == Api({h}, {h}, {})
            && Claims(r.mem, h.port, h.uid) && h.port !in r.mem.draining
  {
    var s := NewLeader(0, NOTHING, FORGOTTEN);
    var loaded := NothingLoaded(t);
    var taken := Taken(t, Ran(s, loaded), h);
    RunsJoin(s, t, loaded, taken);
    actions := loaded + taken;
  }

  /** And drains it, for a drain from then. */
  lemma DroppedFirst(t: Timing, h: Hold) returns (actions: seq<Action>)
    requires Sane(t)
    ensures var s := NewLeader(0, NOTHING, FORGOTTEN);
            && Starts(s) && GoesWell(s, t, actions)
            && var r := Ran(s, actions);
            && Calm(r) && r.now == 0 && r.mem.loadedAt == 0 && r.api == Api({}, {h}, {GivenUp(h, 0, 0)})
            && h.port !in r.mem.claims && Drains(r.mem, h.port, h.uid) && r.mem.draining[h.port].until == PORT_DRAIN
  {
    var s := NewLeader(0, NOTHING, FORGOTTEN);
    var taken := TakenFirst(t, h);
    var dropped := Dropped(t, Ran(s, taken), h, 0);
    RunsJoin(s, t, taken, dropped);
    actions := taken + dropped;
  }

  /** A port no longer claimed goes to another once it has drained, whatever slices say. */
  lemma TakenOnceOver(t: Timing, s: State, first: seq<Action>, h: Hold, taker: Holder)
    returns (waited: seq<Action>, last: Action)
    requires Sane(t) && taker.uid != h.uid && GoesWell(s, t, first)
    requires var r := Ran(s, first);
             && Calm(r) && r.now == 0 && r.mem.loadedAt == 0 && h in r.api.slices && NoDrainsOf(r.api, taker.uid)
             && h.port !in r.mem.claims && Drains(r.mem, h.port, h.uid) && r.mem.draining[h.port].until == PORT_DRAIN
    ensures GoesWell(s, t, waited) && IsRun(s, t, waited + [last]) && !Exclusive(Ran(s, waited + [last]))
  {
    var r := Ran(s, first);
    Waited(t, r, PORT_DRAIN);
    RunsJoin(s, t, first, [Tick(PORT_DRAIN)]);
    waited, last := first + [Tick(PORT_DRAIN)], TakePorts(taker, PORT_DRAIN, {h.port});
    var over := Ran(s, waited);
    assert IsRun(Next(over, last), t, []) && Ran(over, [last]) == Next(over, last);
    assert IsRun(over, t, [last]);
    RunsJoin(s, t, waited, [last]);
    assert InUse(Next(over, last), h) && InUse(Next(over, last), Hold(taker.uid, h.port));
  }

  /**
   * A slice still there when its port's drain ends: whoever takes the port shares it. Here its workload gave the port
   * up, and the slice was never deleted. All goes well but the last call.
   */
  lemma LateDeletionSharesAPort(t: Timing, h: Hold, taker: Holder) returns (actions: seq<Action>, last: Action)
    requires Sane(t) && taker.uid != h.uid
    ensures var s := NewLeader(0, NOTHING, FORGOTTEN);
            Starts(s) && GoesWell(s, t, actions) && IsRun(s, t, actions + [last])
              && !Exclusive(Ran(s, actions + [last]))
  {
    var dropped := DroppedFirst(t, h);
    actions, last := TakenOnceOver(t, NewLeader(0, NOTHING, FORGOTTEN), dropped, h, taker);
  }

  /** A status with nothing but drains, and a slice with one port. */
  function Leftover(h: Hold, drains: seq<(Port, int)>): PortsInUse {
    PortsInUse([Listed(h.uid, "", [], drains)], [ListedSlice(Some(h.uid), "", [h.port])])
  }

  /** What a leader finds of a workload with a slice of a port its status has draining: only the drain. */
  lemma LeftoverMerged(h: Hold)
    ensures var api, u := Api({}, {h}, {GivenUp(h, 0, 0)}), Leftover(h, [(h.port, PORT_DRAIN)]);
            && Matches(AllRead(0, api), u)
            && (forall n :: n in api.drains ==> !PassedOver(u, n.drain, 0))
            && var m := Merged(FORGOTTEN, u, 0);
            && m.loaded && m.loadedAt == 0 && h.port !in m.claims
            && Drains(m, h.port, h.uid) && m.draining[h.port].until == PORT_DRAIN
  {
    var drains := [(h.port, PORT_DRAIN)];
    var u, w, sl := Leftover(h, drains), Listed(h.uid, "", [], drains), ListedSlice(Some(h.uid), "", [h.port]);
    assert u.workloads == [w] && u.slices == [sl];
    assert w in u.workloads && sl in u.slices && drains[0] in w.drains && h.port in sl.ports;
    assert RouteHolds(u.workloads) == {} && SliceHolds(u.slices) == {h};
    assert DrainsRead(u.workloads) == {StatusDrain(h.uid, h.port, PORT_DRAIN)};
    assert [w][..0] == [];
    assert FirstToDrain(u.workloads[..0], h.port, 0) == None;
    assert FirstToDrain(u.workloads, h.port, 0) == Some(h.uid);
    LeftoverIsntClaimed(h);
    MergedHolds(FORGOTTEN, u, 0);
    FirstDrains(u.workloads, 0, h.port);
  }

  lemma LeftoverIsntClaimed(h: Hold)
    ensures h.port !in Merged(FORGOTTEN, Leftover(h, [(h.port, PORT_DRAIN)]), 0).claims
  {
    var u := Leftover(h, [(h.port, PORT_DRAIN)]);
    var (claims, draining) := FromWorkloads(map[], u.workloads, 0);
    assert u.workloads[..0] == [] && u.slices[..0] == [] && [h.port][..0] == [];
    assert FirstToDrain(u.workloads[..0], h.port, 0) == None;
    FirstDrains(u.workloads, 0, h.port);
    assert [(h.port, PORT_DRAIN)][0] in u.workloads[0].drains;
    assert FromSlices(claims, draining, u.slices[..0], 0) == claims;
    assert AllClaimed(claims, draining, [h.port][..0], h.uid, "", 0) == claims;
  }

  /**
   * The same once a leader stops between a workload's taking a port back while it drains, which its slice says, and
   * the status that still has the drain: the next leader goes by the drain, and gives the port away when it ends.
   */
  lemma LostRetakeSharesAPort(t: Timing, h: Hold, taker: Holder) returns (actions: seq<Action>, last: Action)
    requires Sane(t) && taker.uid != h.uid
    ensures var s := NewLeader(0, NOTHING, FORGOTTEN);
            Starts(s) && GoesWell(s, t, actions) && IsRun(s, t, actions + [last])
              && !Exclusive(Ran(s, actions + [last]))
  {
    var s, api := NewLeader(0, NOTHING, FORGOTTEN), Api({}, {h}, {GivenUp(h, 0, 0)});
    var dropped := DroppedFirst(t, h);
    SliceDeleted(t, Ran(s, dropped), h);
    RunsJoin(s, t, dropped, [DeleteSlice(h.uid, h.port)]);
    var gone := dropped + [DeleteSlice(h.uid, h.port)];
    var retaken := RetakenAndLost(t, Ran(s, gone), h);
    RunsJoin(s, t, gone, retaken);
    assert Ran(s, gone + retaken) == NewLeader(0, api, FORGOTTEN);
    LeftoverMerged(h);
    var u := Leftover(h, [(h.port, PORT_DRAIN)]);
    var loaded := FirstLoaded(t, 0, api, u);
    RunsJoin(s, t, gone + retaken, loaded);
    actions, last := TakenOnceOver(t, s, gone + retaken + loaded, h, taker);
  }

  // Two statuses with one port still draining

  /** A call that reads the clock just short of a second, and acts on it. */
  const EARLY := SECOND - 1
  const DRAINED := EARLY + PORT_DRAIN

  /** What a leader makes of two statuses' drains of one port: it goes by the first. */
  lemma OverlappingMerged(a: Uid, b: Uid, p: Port)
    requires a != b
    ensures var na, nb := GivenUp(Hold(a, p), EARLY, SECOND), GivenUp(Hold(b, p), DRAINED, DRAINED);
            var u := PortsInUse([Listed(a, "", [], [(p, na.drain.until)]), Listed(b, "", [], [(p, nb.drain.until)])],
                                []);
            && Matches(AllRead(DRAINED, Api({}, {}, {na, nb})), u)
            && var m := Merged(FORGOTTEN, u, DRAINED);
            && m.loaded && m.loadedAt == DRAINED && p !in m.claims
            && Drains(m, p, a) && m.draining[p].until == SECOND + PORT_DRAIN
  {
    var na, nb := GivenUp(Hold(a, p), EARLY, SECOND), GivenUp(Hold(b, p), DRAINED, DRAINED);
    var wa, wb := Listed(a, "", [], [(p, na.drain.until)]), Listed(b, "", [], [(p, nb.drain.until)]);
    var u := PortsInUse([wa, wb], []);
    assert u.workloads[0] == wa && u.workloads[1] == wb && (p, na.drain.until) in wa.drains
           && (p, nb.drain.until) in wb.drains;
    assert RouteHolds(u.workloads) == {} && DrainsRead(u.workloads) == {na.drain, nb.drain};
    assert u.workloads[..1] == [wa] && [wa][..0] == [];
    assert FirstToDrain([wa][..0], p, DRAINED) == None && FirstToDrain([wa], p, DRAINED) == Some(a);
    MergedHolds(FORGOTTEN, u, DRAINED);
    FirstDrains(u.workloads, DRAINED, p);
  }

  /** One workload gives a port up, reading the clock a moment before it writes, and its slice goes. */
  lemma FirstGivesUp(t: Timing, h: Hold) returns (actions: seq<Action>)
    requires Sane(t) && t.work > 1
    ensures var s := NewLeader(0, NOTHING, FORGOTTEN);
            && Starts(s) && GoesWell(s, t, actions)
            && var r := Ran(s, actions);
            && Calm(r) && r.now == SECOND && r.mem.loadedAt == 0 && r.api == Api({}, {}, {GivenUp(h, EARLY, SECOND)})
            && h.port !in r.mem.claims && Drains(r.mem, h.port, h.uid) && r.mem.draining[h.port].until == DRAINED
  {
    var s := NewLeader(0, NOTHING, FORGOTTEN);
    var taken := TakenFirst(t, h);
    Waited(t, Ran(s, taken), SECOND);
    RunsJoin(s, t, taken, [Tick(SECOND)]);
    var waited := taken + [Tick(SECOND)];
    var dropped := Dropped(t, Ran(s, waited), h, EARLY);
    RunsJoin(s, t, waited, dropped);
    SliceDeleted(t, Ran(s, waited + dropped), h);
    RunsJoin(s, t, waited + dropped, [DeleteSlice(h.uid, h.port)]);
    actions := waited + dropped + [DeleteSlice(h.uid, h.port)];
  }

  /** Another takes it as its drain ends in memory, and at once gives it up too. */
  lemma SecondGivesUp(t: Timing, s: State, h: Hold, n: Noted) returns (actions: seq<Action>)
    requires Sane(t) && Calm(s) && s.now == SECOND && s.mem.loadedAt == 0 && s.api == Api({}, {}, {n})
             && n.drain.uid != h.uid
    requires h.port !in s.mem.claims && h.port in s.mem.draining && s.mem.draining[h.port].until == DRAINED
    ensures GoesWell(s, t, actions)
    ensures Ran(s, actions) == NewLeader(DRAINED, Api({}, {}, {n, GivenUp(h, DRAINED, DRAINED)}), FORGOTTEN)
  {
    Waited(t, s, DRAINED);
    var waited := [Tick(DRAINED)];
    var taken := Taken(t, Ran(s, waited), h);
    RunsJoin(s, t, waited, taken);
    var dropped := Dropped(t, Ran(s, waited + taken), h, DRAINED);
    RunsJoin(s, t, waited + taken, dropped);
    var all := waited + taken + dropped;
    SliceDeleted(t, Ran(s, all), h);
    RunsJoin(s, t, all, [DeleteSlice(h.uid, h.port)]);
    Crashed(t, Ran(s, all + [DeleteSlice(h.uid, h.port)]));
    RunsJoin(s, t, all + [DeleteSlice(h.uid, h.port)], [Crash]);
    actions := all + [DeleteSlice(h.uid, h.port)] + [Crash];
    assert {n} + {GivenUp(h, DRAINED, DRAINED)} == {n, GivenUp(h, DRAINED, DRAINED)};
  }

  /**
   * Of two workloads' drains of one port a new leader goes by the first it lists, and may give the other's away while
   * it drains. A status dates its drain from a later reading of the clock than the memory, so the two can overlap.
   */
  lemma OverlappingDrainIsLost(t: Timing, a: Uid, b: Uid, p: Port, taker: Holder) returns (actions: seq<Action>)
    requires Sane(t) && t.work > 1 && a != b && taker.uid != a && taker.uid != b
    ensures var s := NewLeader(0, NOTHING, FORGOTTEN);
            && Starts(s) && IsRun(s, t, actions) && StaysInTime(s, actions)
            && var r, take := Ran(s, actions), TakePorts(taker, SECOND + PORT_DRAIN, {p});
            && Enabled(r, take) && InTime(r, take) && Holding(r, Hold(b, p))
  {
    var s, na, nb := NewLeader(0, NOTHING, FORGOTTEN), GivenUp(Hold(a, p), EARLY, SECOND),
                     GivenUp(Hold(b, p), DRAINED, DRAINED);
    var first := FirstGivesUp(t, Hold(a, p));
    var second := SecondGivesUp(t, Ran(s, first), Hold(b, p), na);
    RunsJoin(s, t, first, second);
    var u := PortsInUse([Listed(a, "", [], [(p, na.drain.until)]), Listed(b, "", [], [(p, nb.drain.until)])], []);
    OverlappingMerged(a, b, p);
    var loaded := FirstLoaded(t, DRAINED, Api({}, {}, {na, nb}), u);
    var until := SECOND + PORT_DRAIN;
    WaitAfter(t, Ran(s, first + second), loaded, until);
    InTimeJoins(s, t, first + second, loaded + [Tick(until)]);
    actions := first + second + (loaded + [Tick(until)]);
    assert Running(Ran(s, actions), nb);
  }

  lemma WaitAfter(t: Timing, s: State, loaded: seq<Action>, to: int)
    requires Sane(t) && IsRun(s, t, loaded) && StaysInTime(s, loaded) && Calm(Ran(s, loaded))
             && Ran(s, loaded).now <= to
    ensures IsRun(s, t, loaded + [Tick(to)]) && StaysInTime(s, loaded + [Tick(to)])
    ensures Ran(s, loaded + [Tick(to)]) == Ran(s, loaded).(now := to)
  {
    Waited(t, Ran(s, loaded), to);
    InTimeJoins(s, t, loaded, [Tick(to)]);
  }

  lemma {:induction false} InTimeJoins(s: State, t: Timing, first: seq<Action>, rest: seq<Action>)
    requires IsRun(s, t, first) && StaysInTime(s, first)
    ensures Ran(s, first + rest) == Ran(Ran(s, first), rest)
    ensures IsRun(Ran(s, first), t, rest) && StaysInTime(Ran(s, first), rest) ==>
              IsRun(s, t, first + rest) && StaysInTime(s, first + rest)
    decreases |first|
  {
    if first == [] {
      assert first + rest == rest;
    } else {
      InTimeJoins(Next(s, first[0]), t, first[1..], rest);
      assert (first + rest)[1..] == first[1..] + rest;
    }
  }
}
