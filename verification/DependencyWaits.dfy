/** Which dependencies a resume waits for, and why resumes never wait on each other. */
module DependencyWaits {
  import opened Chains
  import opened WorkloadGraph
  import opened WorkloadIds
  import opened Wrappers
  import DependencyHolds
  import Search

  /** Times are in seconds. */
  const SERVING_WAIT := 120
  const STATEFUL_SET_START_DEADLINE := 600

  /** A dependency's workload as read: its replicas, how many are Ready, and a Deployment's progress deadline. */
  datatype Target = Target(replicas: nat, readyReplicas: nat, observed: bool, progressDeadline: Option<nat>)

  datatype Read = Found(target: Target) | Missing | Unwatched | Forbidden | Failed

  predicate IsReady(t: Target) {
    t.replicas > 0 && t.observed && t.readyReplicas >= t.replicas
  }

  /** Far enough up for a dependent to start; dep is the node that manages it, if any. */
  predicate ServesDependents(dep: Option<Node>, t: Target, waited: int) {
    if IsReady(t) then true
    else if t.readyReplicas == 0 then false
    else if dep.Some? then dep.value.phase == Running || dep.value.phase == Idle
    else waited >= SERVING_WAIT
  }

  /** Not Ready, and won't become so by waiting. */
  predicate WontStart(dep: Option<Node>, t: Target) {
    !(dep.Some? && dep.value.phase in {Paused, Pausing, Resuming}) && t.replicas == 0
  }

  function StartDeadline(t: Target): int {
    if t.progressDeadline.Some? then t.progressDeadline.value else STATEFUL_SET_START_DEADLINE
  }

  datatype Why = WontStartByWaiting | WaitsForThisOne | PastDeadline

  /** What one of the resuming workload's references comes to. */
  datatype Verdict = Ignored | Skipped(why: Why) | Waits | Unreadable

  ghost function VerdictOn(g: Graph, read: WorkloadId -> Read, self: Node, waited: int, id: WorkloadId): Verdict {
    if id == self.target || !Allows(g, self.target.ns, id) then Ignored
    else match read(id)
      case Failed => Unreadable
      case Missing | Unwatched | Forbidden => Ignored
      case Found(t) =>
        var dep := Owner(g, id);
        if ServesDependents(dep, t, waited) then Ignored
        else if WontStart(dep, t) then Skipped(WontStartByWaiting)
        else if dep.Some? && Reach(g, WaitForReady, dep.value, self.target) then Skipped(WaitsForThisOne)
        else if waited >= StartDeadline(t) then Skipped(PastDeadline)
        else Waits
  }

  /** What a reference comes to, by how its workload was found. */
  datatype Standing = Standing(dep: Option<Node>, t: Target, waited: int, inTurn: bool) {
    /** All its replicas are Ready, or some are and they're all it will have for now. */
    ghost predicate IsUp() {
      || (t.replicas > 0 && t.observed && t.readyReplicas >= t.replicas)
      || (t.readyReplicas > 0 && dep.Some? && dep.value.phase in {Running, Idle})
      || (t.readyReplicas > 0 && dep.None? && waited >= 120)
    }

    /** At zero, and not for a pause, or a resume of its own. */
    ghost predicate IsOff() {
      t.replicas == 0 && (dep.None? || dep.value.phase !in {Paused, Pausing, Resuming})
    }

    ghost predicate IsPast() {
      waited >= (if t.progressDeadline.Some? then t.progressDeadline.value else 600)
    }

    ghost predicate IsAwaited() {
      !IsUp() && !IsOff() && !inTurn && !IsPast()
    }
  }

  /** Another workload's, that lets the namespace's depend on it. */
  predicate IsLooked(g: Graph, self: Node, id: WorkloadId) {
    id != self.target && Allows(g, self.target.ns, id)
  }

  ghost function StandingOf(g: Graph, read: WorkloadId -> Read, self: Node, waited: int, id: WorkloadId): Standing
    requires read(id).Found?
  {
    var dep := Owner(g, id);
    Standing(dep, read(id).target, waited, dep.Some? && Reach(g, WaitForReady, dep.value, self.target))
  }

  /** To be waited for: neither up, at zero of its own accord, waiting in turn nor past its deadline. */
  ghost predicate IsAwaited(g: Graph, read: WorkloadId -> Read, self: Node, waited: int, id: WorkloadId) {
    IsLooked(g, self, id) && read(id).Found? && StandingOf(g, read, self, waited, id).IsAwaited()
  }

  /** Verdicts are what those say, and what is skipped is skipped for the first of the others to be so. */
  lemma VerdictMeans(g: Graph, read: WorkloadId -> Read, self: Node, waited: int, id: WorkloadId)
    ensures var v := VerdictOn(g, read, self, waited, id);
            && (v.Waits? <==> IsAwaited(g, read, self, waited, id))
            && (v.Unreadable? <==> IsLooked(g, self, id) && read(id).Failed?)
            && (v.Skipped? ==> IsLooked(g, self, id) && read(id).Found?)
            && (IsLooked(g, self, id) && read(id).Found? ==>
                  var s := StandingOf(g, read, self, waited, id);
                  && (v == Skipped(WontStartByWaiting) <==> !s.IsUp() && s.IsOff())
                  && (v == Skipped(WaitsForThisOne) <==> !s.IsUp() && !s.IsOff() && s.inTurn)
                  && (v == Skipped(PastDeadline) <==> !s.IsUp() && !s.IsOff() && !s.inTurn && s.IsPast()))
  {
  }

  datatype Outcome =
    | Proceed(skipped: seq<(WorkloadId, Why)>)
    | Wait(waiting: seq<WorkloadId>, woken: seq<Node>)
    | ReadFailed(id: WorkloadId)

  method Judge(g: Graph, read: WorkloadId -> Read, self: Node, waited: int, id: WorkloadId) returns (v: Verdict)
    ensures v == VerdictOn(g, read, self, waited, id)
  {
    if id == self.target || !Allows(g, self.target.ns, id) {
      return Ignored;
    }
    match read(id)
    case Failed => return Unreadable;
    case Missing | Unwatched | Forbidden => return Ignored;
    case Found(t) =>
      var dep := Owner(g, id);
      if ServesDependents(dep, t, waited) {
        return Ignored;
      }
      if WontStart(dep, t) {
        return Skipped(WontStartByWaiting);
      }
      if dep.Some? {
        var mutual := Reaches(g, WaitForReady, dep.value, self.target);
        if mutual {
          return Skipped(WaitsForThisOne);
        }
      }
      return if waited >= StartDeadline(t) then Skipped(PastDeadline) else Waits;
  }

  /**
   * Whether a resume that has waited so long goes on, waits, or fails on a read: it waits exactly while some
   * reference is one to wait for, never past the start deadline of what it waits for, and wakes again the managed ones
   * among those that are still paused.
   */
  method WaitForDependencies(g: Graph, read: WorkloadId -> Read, self: Node, waited: int) returns (out: Outcome)
    ensures out.ReadFailed? <==> exists id :: id in self.waitsFor && VerdictOn(g, read, self, waited, id).Unreadable?
    ensures out.Wait? ==>
              forall id :: id in out.waiting <==> id in self.waitsFor && VerdictOn(g, read, self, waited, id).Waits?
    ensures out.ReadFailed? ==>
              exists id :: id in self.waitsFor && IsLooked(g, self, id) && read(id).Failed?
    ensures out.Wait? ==>
              forall id :: id in out.waiting <==> id in self.waitsFor && IsAwaited(g, read, self, waited, id)
    ensures out.Proceed? ==> forall id :: id in self.waitsFor && IsLooked(g, self, id) ==>
              !read(id).Failed? && (read(id).Found? ==> !StandingOf(g, read, self, waited, id).IsAwaited())
    ensures out.Wait? ==> out.waiting != []
    ensures out.Wait? ==> forall id :: id in out.waiting ==>
              read(id).Found? && waited < StartDeadline(read(id).target)
    ensures out.Wait? ==> forall d :: d in out.woken <==>
              d.phase == Paused && d.uid != self.uid && exists id :: id in out.waiting && Owner(g, id) == Some(d)
    ensures out.Proceed? ==> forall id :: id in self.waitsFor ==> !VerdictOn(g, read, self, waited, id).Waits?
    ensures out.Proceed? ==> forall id, why :: (id, why) in out.skipped <==>
              id in self.waitsFor && VerdictOn(g, read, self, waited, id) == Skipped(why)
  {
    forall id
      ensures VerdictOn(g, read, self, waited, id).Waits? <==> IsAwaited(g, read, self, waited, id)
      ensures VerdictOn(g, read, self, waited, id).Unreadable? <==> IsLooked(g, self, id) && read(id).Failed?
    {
      VerdictMeans(g, read, self, waited, id);
    }
    var waiting: seq<WorkloadId> := [];
    var woken: seq<Node> := [];
    var skipped: seq<(WorkloadId, Why)> := [];
    for i := 0 to |self.waitsFor|
      invariant forall id :: id in self.waitsFor[..i] ==> !VerdictOn(g, read, self, waited, id).Unreadable?
      invariant forall id :: id in waiting <==> id in self.waitsFor[..i] && VerdictOn(g, read, self, waited, id).Waits?
      invariant forall d :: d in woken <==>
                  d.phase == Paused && d.uid != self.uid && exists id :: id in waiting && Owner(g, id) == Some(d)
      invariant forall id, why :: (id, why) in skipped <==>
                  id in self.waitsFor[..i] && VerdictOn(g, read, self, waited, id) == Skipped(why)
    {
      var id := self.waitsFor[i];
      assert self.waitsFor[..i + 1] == self.waitsFor[..i] + [id];
      var v := Judge(g, read, self, waited, id);
      match v
      case Ignored =>
      case Unreadable => return ReadFailed(id);
      case Skipped(why) => skipped := skipped + [(id, why)];
      case Waits =>
        var dep := Owner(g, id);
        if dep.Some? && dep.value.uid != self.uid && !DependencyHolds.IsAwake(dep.value.phase) {
          woken := woken + [dep.value];
        }
        waiting := waiting + [id];
    }
    assert self.waitsFor[..|self.waitsFor|] == self.waitsFor;
    return if waiting == [] then Proceed(skipped) else Wait(waiting, woken);
  }

  /** w, resuming, may wait for dep by waitForReady: it lists what dep owns, and dep doesn't wait for w in turn. */
  ghost function WaitRelation(g: Graph): (Node, Node) -> bool {
    (w: Node, dep: Node) =>
      exists id :: Step(g, WaitForReady, w, id) && Owner(g, id) == Some(dep) && !Reach(g, WaitForReady, dep, w.target)
  }

  /** Whatever is read and however long it has waited, a managed dependency waited for is one WaitRelation gives. */
  lemma WaitsAreRelated(g: Graph, read: WorkloadId -> Read, self: Node, waited: int, id: WorkloadId, dep: Node)
    requires id in self.waitsFor && VerdictOn(g, read, self, waited, id).Waits? && Owner(g, id) == Some(dep)
    ensures WaitRelation(g)(self, dep)
  {
  }

  lemma {:induction false} ChainWaits(g: Graph, p: seq<Node>)
    requires |p| >= 2 && IsChain(WaitRelation(g), p)
    ensures Reach(g, WaitForReady, p[0], p[|p| - 1].target)
    ensures Owner(g, p[|p| - 1].target) == Some(p[|p| - 1])
  {
    var last := |p| - 1;
    assert WaitRelation(g)(p[last - 1], p[last]);
    var id :| Step(g, WaitForReady, p[last - 1], id) && Owner(g, id) == Some(p[last]);
    if |p| == 2 {
      Search.ReachStep(View(g, WaitForReady), p[0], id);
    } else {
      ChainWaits(g, p[..last]);
      Search.ReachLink(View(g, WaitForReady), p[0], p[last - 1].target, id);
    }
  }

  lemma NoneWaitsForItself(g: Graph, w: Node)
    ensures !WaitRelation(g)(w, w)
  {
  }

  /** No set of resuming workloads waits on each other: what is left after the mutual-wait skip has no cycle. */
  lemma NoMutualWait(g: Graph)
    ensures Acyclic(WaitRelation(g))
  {
    forall p: seq<Node> | IsCycle(WaitRelation(g), p)
      ensures false
    {
      var w, dep := p[0], p[1];
      assert WaitRelation(g)(w, dep);
      NoneWaitsForItself(g, w);
      if |p| > 2 {
        var rest := p[1..];
        assert rest[|rest| - 1] == w;
        assert IsChain(WaitRelation(g), rest);
        ChainWaits(g, rest);
      }
    }
  }

  /** Of any workloads resuming together, one waits for none of the others. */
  lemma SomeResumeGoesOn(g: Graph, resuming: set<Node>) returns (first: Node)
    requires resuming != {}
    ensures first in resuming
    ensures forall read, waited, id, dep ::
              dep in resuming && id in first.waitsFor && Owner(g, id) == Some(dep)
              ==> !VerdictOn(g, read, first, waited, id).Waits?
  {
    NoMutualWait(g);
    var back := (a: Node, b: Node) => WaitRelation(g)(b, a);
    forall p: seq<Node> | IsCycle(back, p)
      ensures false
    {
      var q := seq(|p|, i requires 0 <= i < |p| => p[|p| - 1 - i]);
      forall i, j | 0 <= i && j == i + 1 < |q|
        ensures WaitRelation(g)(q[i], q[j])
      {
        assert back(p[|p| - 1 - j], p[|p| - 1 - i]);
      }
      assert IsCycle(WaitRelation(g), q);
    }
    first := SourceExists(back, resuming);
    forall read, waited, id, dep | dep in resuming && id in first.waitsFor && Owner(g, id) == Some(dep)
      ensures !VerdictOn(g, read, first, waited, id).Waits?
    {
      assert !back(dep, first);
      if VerdictOn(g, read, first, waited, id).Waits? {
        WaitsAreRelated(g, read, first, waited, id, dep);
      }
    }
  }
}
