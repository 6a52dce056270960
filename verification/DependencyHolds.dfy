/** Which dependents hold a workload awake, and why that never leaves a fleet awake for good. */
module DependencyHolds {
  import opened Chains
  import opened WorkloadGraph
  import opened WorkloadIds
  import opened Workloads
  import opened Wrappers
  import Search

  predicate IsAwake(phase: Phase) {
    phase != Paused
  }

  /** Whether dependent counts as awake for workload: two in dry-run are measured as they would be live. */
  predicate AwakeFor(dependent: Node, workload: Node) {
    !(dependent.dryRun && workload.dryRun && dependent.phase == Idle) && IsAwake(dependent.phase)
  }

  /** A declared dependent holds what it depends on; a learned one unless that depends on it in turn. */
  ghost predicate Holds(g: Graph, dependent: Node, workload: Node) {
    workload.target in dependent.dependsOn || !Reach(g, All, workload, dependent.target)
  }

  /** d is one of the holders the code lists for w. */
  ghost predicate HoldsAwake(g: Graph, d: Node, w: Node) {
    && w.target in d.dependencies && d.uid != w.uid && Allows(g, d.target.ns, w.target)
    && d.acts && AwakeFor(d, w) && Holds(g, d, w)
  }

  /** An acting dependent of another UID, allowed, and up: none that would have paused with a dry-run workload. */
  ghost predicate DependsAwake(g: Graph, d: Node, w: Node) {
    && w.target in d.dependencies && d.acts && d.uid != w.uid && Allows(g, d.target.ns, w.target)
    && d.phase != Paused && !(d.phase == Idle && d.dryRun && w.dryRun)
  }

  /**
   * Of those, none but a learned dependent that the workload depends on in turn, directly or through others, is left
   * out of its holders; and nothing else is among them.
   */
  lemma LeftOutOnlyInTurn(g: Graph, d: Node, w: Node)
    ensures !DependsAwake(g, d, w) ==> !HoldsAwake(g, d, w)
    ensures DependsAwake(g, d, w) ==>
              (!HoldsAwake(g, d, w) <==> w.target !in d.dependsOn && Reach(g, All, w, d.target))
  {
  }

  datatype DependencyHolds = Cycle | Holders(holders: seq<Node>)

  method HoldsIt(g: Graph, dependent: Node, workload: Node) returns (holds: bool)
    ensures holds <==> Holds(g, dependent, workload)
    ensures !holds <==> workload.target !in dependent.dependsOn && Reach(g, All, workload, dependent.target)
  {
    if workload.target in dependent.dependsOn {
      return true;
    }
    var back := Reaches(g, All, workload, dependent.target);
    return !back;
  }

  /** What keeps self from pausing: a dependsOn cycle through it, or exactly its awake holders, each once. */
  method HoldsOf(g: Graph, self: Node) returns (h: DependencyHolds)
    requires WellFormed(g)
    ensures h.Cycle? <==> Reach(g, Declared, self, self.target)
    ensures h.Holders? ==> forall d :: d in h.holders <==> d in g.nodes && HoldsAwake(g, d, self)
    ensures h.Holders? ==> forall d :: d in g.nodes && DependsAwake(g, d, self) ==>
              (d !in h.holders <==> self.target !in d.dependsOn && Reach(g, All, self, d.target))
    ensures h.Holders? ==> forall i, j :: 0 <= i < j < |h.holders| ==> h.holders[i].uid != h.holders[j].uid
  {
    var cycle := Reaches(g, Declared, self, self.target);
    if cycle {
      return Cycle;
    }
    var holders: seq<Node> := [];
    for n := 0 to |g.nodes|
      invariant forall d :: d in holders <==> d in g.nodes[..n] && HoldsAwake(g, d, self)
      invariant forall i, j :: 0 <= i < j < |holders| ==> holders[i].uid != holders[j].uid
    {
      var d := g.nodes[n];
      assert g.nodes[..n + 1] == g.nodes[..n] + [d];
      if self.target in d.dependencies && d.uid != self.uid && Allows(g, d.target.ns, self.target) &&
         d.acts && AwakeFor(d, self)
      {
        var holds := HoldsIt(g, d, self);
        if holds {
          assert forall i :: 0 <= i < |holders| ==> holders[i] in g.nodes[..n];
          holders := holders + [d];
        }
      }
    }
    assert g.nodes[..|g.nodes|] == g.nodes;
    return Holders(holders);
  }

  // The relation as a whole

  /** Every node that acts on its target is the one the graph takes to own it. */
  ghost predicate ActingOwn(g: Graph) {
    forall n :: n in g.nodes && n.acts ==> Owner(g, n.target) == Some(n)
  }

  /** d, awake, keeps the acting workload w from pausing. */
  ghost function Relation(g: Graph): (Node, Node) -> bool {
    (d: Node, w: Node) => d in g.nodes && w in g.nodes && w.acts && HoldsAwake(g, d, w)
  }

  /** d, awake for the acting workload w, declares it. */
  ghost function DeclaredRelation(g: Graph): (Node, Node) -> bool {
    (d: Node, w: Node) =>
      && d in g.nodes && w in g.nodes && d.acts && w.acts && d.uid != w.uid
      && w.target in d.dependsOn && Allows(g, d.target.ns, w.target) && AwakeFor(d, w)
  }

  /** Acting nodes, each with an edge of the kind to the next. */
  ghost predicate Follows(g: Graph, kind: EdgeKind, q: seq<Node>) {
    && (forall i :: 0 <= i < |q| ==> q[i] in g.nodes && q[i].acts)
    && (forall i, j :: 0 <= i && j == i + 1 < |q| ==> Step(g, kind, q[i], q[j].target))
  }

  lemma {:induction false} FollowsReaches(g: Graph, kind: EdgeKind, q: seq<Node>)
    requires ActingOwn(g) && |q| >= 2 && Follows(g, kind, q)
    ensures Reach(g, kind, q[0], q[|q| - 1].target)
  {
    var last := |q| - 1;
    assert Step(g, kind, q[last - 1], q[last].target);
    if |q| == 2 {
      Search.ReachStep(View(g, kind), q[0], q[1].target);
    } else {
      assert Follows(g, kind, q[..last]);
      FollowsReaches(g, kind, q[..last]);
      assert Owner(g, q[last - 1].target) == Some(q[last - 1]);
      Search.ReachLink(View(g, kind), q[0], q[last - 1].target, q[last].target);
    }
  }

  /** A closed walk read from just after one of its places round to that place again. */
  function Rotated<T>(p: seq<T>, i: nat): seq<T>
    requires i + 1 < |p|
  {
    p[i + 1..] + p[1..i + 1]
  }

  lemma RotatedChain<T(!new)>(r: (T, T) -> bool, p: seq<T>, i: nat)
    requires IsCycle(r, p) && i + 1 < |p|
    ensures IsChain(r, Rotated(p, i)) && |Rotated(p, i)| == |p| - 1
    ensures Rotated(p, i)[0] == p[i + 1] && Rotated(p, i)[|p| - 2] == p[i]
  {
  }

  /** A holder has an edge to what it holds, declared or learned. */
  lemma HolderSteps(g: Graph, d: Node, w: Node)
    requires ActingOwn(g) && Relation(g)(d, w)
    ensures Step(g, All, d, w.target)
  {
  }

  lemma ChainFollows(g: Graph, q: seq<Node>)
    requires ActingOwn(g) && |q| >= 2 && IsChain(Relation(g), q)
    requires q[0].acts && q[0] in g.nodes
    ensures Follows(g, All, q)
  {
    forall i, j | 0 <= i && j == i + 1 < |q|
      ensures Step(g, All, q[i], q[j].target) && q[j] in g.nodes && q[j].acts
    {
      assert Relation(g)(q[i], q[j]);
      HolderSteps(g, q[i], q[j]);
    }
    forall i | 0 <= i < |q|
      ensures q[i] in g.nodes && q[i].acts
    {
      if i > 0 {
        assert Relation(g)(q[i - 1], q[i]);
      }
    }
  }

  /** Where workloads hold each other awake in a circle, each declares the next: a learned edge would give way. */
  lemma CirclesAreDeclared(g: Graph, p: seq<Node>)
    requires ActingOwn(g) && IsCycle(Relation(g), p)
    ensures IsCycle(DeclaredRelation(g), p)
  {
    forall i, j | 0 <= i && j == i + 1 < |p|
      ensures DeclaredRelation(g)(p[i], p[j])
    {
      assert Relation(g)(p[i], p[j]);
      RotatedChain(Relation(g), p, i);
      var q := Rotated(p, i);
      if |q| >= 2 {
        ChainFollows(g, q);
        FollowsReaches(g, All, q);
        assert Reach(g, All, p[j], p[i].target);
      }
    }
  }

  /**
   * Deadlock freedom: workloads hold each other awake in a circle exactly when awake ones declare each other in a
   * circle. What is learned, in whatever mix with what is declared, never makes one.
   */
  lemma LearnedNeverDeadlocks(g: Graph)
    requires WellFormed(g) && ActingOwn(g)
    ensures Acyclic(Relation(g)) <==> Acyclic(DeclaredRelation(g))
  {
    forall p: seq<Node> | IsCycle(Relation(g), p)
      ensures IsCycle(DeclaredRelation(g), p)
    {
      CirclesAreDeclared(g, p);
    }
    forall p: seq<Node> | IsCycle(DeclaredRelation(g), p)
      ensures IsCycle(Relation(g), p)
    {
      forall i, j | 0 <= i && j == i + 1 < |p|
        ensures Relation(g)(p[i], p[j])
      {
        assert DeclaredRelation(g)(p[i], p[j]);
      }
    }
  }

  /** No acting workload's dependsOn leads back to it: HoldsOf reports no cycle for any. */
  ghost predicate NoDeclaredCycle(g: Graph) {
    forall n :: n in g.nodes && n.acts ==> !Reach(g, Declared, n, n.target)
  }

  /** The local check is enough: when no workload's own check finds a cycle, none hold each other in a circle. */
  lemma LocalCheckSuffices(g: Graph)
    requires ActingOwn(g) && NoDeclaredCycle(g)
    ensures Acyclic(Relation(g))
  {
    forall p: seq<Node> | IsCycle(Relation(g), p)
      ensures false
    {
      CirclesAreDeclared(g, p);
      forall i, j | 0 <= i && j == i + 1 < |p|
        ensures Step(g, Declared, p[i], p[j].target)
      {
        assert DeclaredRelation(g)(p[i], p[j]);
        assert Owner(g, p[i].target) == Some(p[i]) && Owner(g, p[j].target) == Some(p[j]);
      }
      forall i | 0 <= i < |p|
        ensures p[i] in g.nodes && p[i].acts
      {
        var a := if i == 0 then 0 else i - 1;
        assert DeclaredRelation(g)(p[a], p[a + 1]);
      }
      FollowsReaches(g, Declared, p);
    }
  }

  // Coming to rest

  /** Paused, or for a workload in dry-run, in the Idle that stands for it. */
  predicate Settled(n: Node) {
    n.phase == Paused || (n.dryRun && n.phase == Idle)
  }

  ghost predicate Held(g: Graph, w: Node) {
    exists d :: d in g.nodes && HoldsAwake(g, d, w)
  }

  /** d, in dry-run and so with its pods up whatever becomes of it, holds the live workload w. */
  ghost predicate Blocks(g: Graph, d: Node, w: Node) {
    Relation(g)(d, w) && d.dryRun && !w.dryRun
  }

  /** Unsettled workloads, each holding the next, up to w. */
  ghost predicate LeadsUp(g: Graph, p: seq<Node>, w: Node) {
    p != [] && p[|p| - 1] == w && IsChain(Relation(g), p) && forall i :: 0 <= i < |p| ==> !Settled(p[i])
  }

  /** One that blocks the first of a chain of unsettled workloads up to w. */
  ghost predicate IsJam(g: Graph, p: seq<Node>, w: Node) {
    |p| >= 2 && Blocks(g, p[0], p[1]) && LeadsUp(g, p[1..], w)
  }

  /** w hasn't settled, and is blocked, or held by an unsettled workload that is stuck in turn. */
  ghost predicate Stuck(g: Graph, w: Node) {
    exists p :: IsJam(g, p, w)
  }

  ghost predicate IsAbove(g: Graph, x: Node, w: Node) {
    x in g.nodes && x.acts && exists p :: LeadsUp(g, p, w) && p[0] == x
  }

  lemma AboveGrows(g: Graph, d: Node, p: seq<Node>, w: Node)
    requires LeadsUp(g, p, w) && Relation(g)(d, p[0]) && !Settled(d)
    ensures IsAbove(g, d, w)
  {
    assert LeadsUp(g, [d] + p, w) && ([d] + p)[0] == d;
  }

  lemma StuckIsUnsettled(g: Graph, w: Node)
    requires Stuck(g, w)
    ensures !Settled(w)
  {
    var p :| IsJam(g, p, w);
    assert !Settled(p[1..][|p[1..]| - 1]);
  }

  /** The first of a chain held up to w, held by none unsettled, is blocked. */
  lemma TopIsBlocked(g: Graph, d: Node, p: seq<Node>, w: Node)
    requires LeadsUp(g, p, w) && Relation(g)(d, p[0]) && Settled(d)
    ensures Stuck(g, w)
  {
    assert ([d] + p)[1..] == p;
    assert IsJam(g, [d] + p, w);
  }

  /** When every unsettled workload is held, every one is stuck: nothing else keeps a fleet awake. */
  lemma AllHeldAreStuck(g: Graph, w: Node)
    requires Acyclic(Relation(g))
    requires forall x :: x in g.nodes && x.acts && !Settled(x) ==> Held(g, x)
    requires w in g.nodes && w.acts && !Settled(w)
    ensures Stuck(g, w)
  {
    var above := set x | x in g.nodes && IsAbove(g, x, w);
    assert LeadsUp(g, [w], w) && [w][0] == w;
    assert IsAbove(g, w, w) && w in above;
    var top := SourceExists(Relation(g), above);
    var p :| LeadsUp(g, p, w) && p[0] == top;
    assert !Settled(p[0]);
    var d :| d in g.nodes && HoldsAwake(g, d, top);
    assert Relation(g)(d, top);
    if !Settled(d) {
      AboveGrows(g, d, p, w);
      assert false;
    }
    TopIsBlocked(g, d, p, w);
  }

  /** n once its pause has gone through. */
  function Rested(n: Node): (r: Node)
    ensures Settled(r) && r == n.(phase := r.phase)
  {
    n.(phase := if n.dryRun then Idle else Paused)
  }

  /** Node i, unsettled, with no dependsOn cycle through it and nothing holding it, pauses. */
  ghost predicate Pauses(g: Graph, next: Graph, i: nat) {
    && i < |g.nodes|
    && g.nodes[i].acts && !Settled(g.nodes[i])
    && !Reach(g, Declared, g.nodes[i], g.nodes[i].target) && !Held(g, g.nodes[i])
    && next == g.(nodes := g.nodes[i := Rested(g.nodes[i])])
  }

  /** Nothing pauses under an awake dependent that it doesn't itself depend on in turn. */
  lemma PausesOnlyUnderItsOwn(g: Graph, next: Graph, i: nat, d: Node)
    requires Pauses(g, next, i) && d in g.nodes && DependsAwake(g, d, g.nodes[i])
    ensures g.nodes[i].target !in d.dependsOn && Reach(g, All, g.nodes[i], d.target)
  {
    LeftOutOnlyInTurn(g, d, g.nodes[i]);
    assert !HoldsAwake(g, d, g.nodes[i]);
  }

  /** A learned dependent that isn't depended on in turn holds as it would had it declared the workload. */
  lemma LearnedHoldsAsDeclared(g: Graph, d: Node, w: Node)
    requires !Reach(g, All, w, d.target)
    ensures HoldsAwake(g, d, w) <==> HoldsAwake(g, d.(dependsOn := d.dependsOn + [w.target]), w)
    ensures HoldsAwake(g, d, w) <==> DependsAwake(g, d, w)
  {
    LeftOutOnlyInTurn(g, d, w);
    LeftOutOnlyInTurn(g, d.(dependsOn := d.dependsOn + [w.target]), w);
  }

  /** The same graph but for phases. */
  ghost predicate SameShape(g: Graph, h: Graph) {
    && |g.nodes| == |h.nodes| && g.dependentsFrom == h.dependentsFrom
    && forall i :: 0 <= i < |g.nodes| ==> h.nodes[i] == g.nodes[i].(phase := h.nodes[i].phase)
  }

  lemma {:induction false} ShapeKeepsOwner(g: Graph, h: Graph, id: WorkloadId, n: nat)
    requires SameShape(g, h) && n <= |g.nodes|
    ensures OwnerUpTo(g.nodes, id, n) == OwnerUpTo(h.nodes, id, n)
  {
    if n > 0 {
      ShapeKeepsOwner(g, h, id, n - 1);
    }
  }

  lemma ShapeKeepsReach(g: Graph, h: Graph, kind: EdgeKind, m: Node, n: Node, to: WorkloadId)
    requires SameShape(g, h) && n == m.(phase := n.phase)
    ensures Reach(g, kind, m, to) ==> Reach(h, kind, n, to)
  {
    if p :| Search.IsPath(View(g, kind), m, p) && p[|p| - 1] == to {
      forall i, j | 0 <= i && j == i + 1 < |p|
        ensures Search.Link(View(h, kind), p[i], p[j])
      {
        assert Search.Link(View(g, kind), p[i], p[j]);
        ShapeKeepsOwner(g, h, p[i], |g.nodes|);
      }
      assert Search.IsPath(View(h, kind), n, p);
    }
  }

  ghost predicate Restful(g: Graph) {
    WellFormed(g) && ActingOwn(g) && NoDeclaredCycle(g)
  }

  lemma PauseKeepsOwn(g: Graph, next: Graph, k: nat)
    requires WellFormed(g) && ActingOwn(g) && SameShape(g, next) && k < |next.nodes| && next.nodes[k].acts
    ensures Owner(next, next.nodes[k].target) == Some(next.nodes[k])
  {
  }

  lemma PauseKeepsRestful(g: Graph, next: Graph, i: nat)
    requires Restful(g) && Pauses(g, next, i)
    ensures Restful(next)
  {
    assert SameShape(g, next) && SameShape(next, g);
    forall k | 0 <= k < |next.nodes| && next.nodes[k].acts
      ensures Owner(next, next.nodes[k].target) == Some(next.nodes[k])
      ensures !Reach(next, Declared, next.nodes[k], next.nodes[k].target)
    {
      assert g.nodes[k] in g.nodes;
      ShapeKeepsReach(next, g, Declared, next.nodes[k], g.nodes[k], next.nodes[k].target);
      PauseKeepsOwn(g, next, k);
    }
  }

  /** The acting workloads that haven't settled, by index. */
  ghost function Unsettled(g: Graph): set<nat> {
    set i: nat | i < |g.nodes| && g.nodes[i].acts && !Settled(g.nodes[i])
  }

  ghost predicate PauseStep(g: Graph, next: Graph) {
    exists i: nat :: Pauses(g, next, i)
  }

  ghost predicate IsPausing(run: seq<Graph>) {
    run != [] && forall i, j :: 0 <= i && j == i + 1 < |run| ==> PauseStep(run[i], run[j])
  }

  lemma PauseSettlesOne(g: Graph, next: Graph)
    requires Restful(g) && PauseStep(g, next)
    ensures Restful(next) && |Unsettled(next)| + 1 == |Unsettled(g)|
  {
    var k: nat :| Pauses(g, next, k);
    PauseKeepsRestful(g, next, k);
    assert Unsettled(next) == Unsettled(g) - {k};
  }

  // Which settle

  /** Which holds which depends on nothing a pause changes, but for who is awake. */
  lemma ShapeKeepsRelation(g: Graph, next: Graph, d: Node, w: Node, e: Node, x: Node)
    requires SameShape(g, next) && e in next.nodes && x in next.nodes
    requires e == d.(phase := e.phase) && x == w.(phase := x.phase) && AwakeFor(e, x)
    ensures Relation(g)(d, w) ==> Relation(next)(e, x)
  {
    ShapeKeepsReach(next, g, All, x, w, e.target);
  }

  /** A chain with its first workload in another phase, awake for the second as before, is one still. */
  lemma JamCarries(g: Graph, next: Graph, p: seq<Node>, first: Node, w: Node)
    requires SameShape(g, next) && IsJam(g, p, w)
    requires first in next.nodes && first == p[0].(phase := first.phase) && IsAwake(first.phase)
    requires forall i :: 1 <= i < |p| ==> p[i] in next.nodes
    ensures IsJam(next, p[0 := first], w)
  {
    var q := p[0 := first];
    assert q[1..] == p[1..];
    ShapeKeepsRelation(g, next, p[0], p[1], first, p[1]);
    forall i, j | 0 <= i && j == i + 1 < |q[1..]|
      ensures Relation(next)(q[1..][i], q[1..][j])
    {
      var d, x := p[1..][i], p[1..][j];
      assert Relation(g)(d, x);
      assert d == p[i + 1] && x == p[j + 1];
      ShapeKeepsRelation(g, next, d, x, d, x);
    }
  }

  /** All of a jam but the first are held. */
  lemma JamIsHeld(g: Graph, p: seq<Node>, w: Node, i: nat)
    requires IsJam(g, p, w) && 1 <= i < |p|
    ensures p[i] in g.nodes && Held(g, p[i]) && !Settled(p[i])
  {
    var q := p[1..];
    assert q[i - 1] == p[i];
    assert i > 1 ==> Relation(g)(q[i - 2], q[i - 1]);
    assert Relation(g)(p[i - 1], p[i]);
  }

  lemma HeldDoesntPause(g: Graph, next: Graph, k: nat, x: Node)
    requires Pauses(g, next, k) && x in g.nodes && Held(g, x)
    ensures x in next.nodes && x != g.nodes[k]
  {
    var m :| 0 <= m < |g.nodes| && g.nodes[m] == x;
    assert next.nodes[m] == x;
  }

  lemma UnsettledDidntPause(g: Graph, next: Graph, k: nat, x: Node)
    requires Pauses(g, next, k) && x in next.nodes && !Settled(x)
    ensures x in g.nodes
  {
    var m :| 0 <= m < |next.nodes| && next.nodes[m] == x;
    assert m != k;
  }

  lemma FirstStays(g: Graph, next: Graph, k: nat, d: Node) returns (e: Node)
    requires Pauses(g, next, k) && d in g.nodes && IsAwake(d.phase) && (d.dryRun || d != g.nodes[k])
    ensures SameShape(g, next) && e in next.nodes && e == d.(phase := e.phase) && IsAwake(e.phase)
  {
    var m :| 0 <= m < |g.nodes| && g.nodes[m] == d;
    e := next.nodes[m];
  }

  lemma FirstWas(g: Graph, next: Graph, k: nat, d: Node) returns (e: Node)
    requires Pauses(g, next, k) && d in next.nodes && IsAwake(d.phase)
    ensures SameShape(next, g) && e in g.nodes && e == d.(phase := e.phase) && IsAwake(e.phase)
  {
    var m :| 0 <= m < |next.nodes| && next.nodes[m] == d;
    e := g.nodes[m];
  }

  /** What begins a jam is awake, and in the graph. */
  lemma FirstIsAwake(g: Graph, p: seq<Node>, w: Node)
    requires IsJam(g, p, w)
    ensures p[0] in g.nodes && p[0].dryRun && IsAwake(p[0].phase) && w == p[|p| - 1]
  {
    assert Relation(g)(p[0], p[1]);
    assert w == p[1..][|p[1..]| - 1];
  }

  /** None of a jam but the first can pause: each is held by the one before. */
  lemma JamStays(g: Graph, next: Graph, k: nat, w: Node)
    requires Pauses(g, next, k) && Stuck(g, w)
    ensures Stuck(next, w) && w != g.nodes[k]
  {
    var p :| IsJam(g, p, w);
    forall i | 1 <= i < |p|
      ensures p[i] in next.nodes && p[i] != g.nodes[k]
    {
      JamIsHeld(g, p, w, i);
      HeldDoesntPause(g, next, k, p[i]);
    }
    FirstIsAwake(g, p, w);
    var first := FirstStays(g, next, k, p[0]);
    JamCarries(g, next, p, first, w);
  }

  /** And a pause jams nothing that wasn't. */
  lemma JamWas(g: Graph, next: Graph, k: nat, w: Node)
    requires Pauses(g, next, k) && Stuck(next, w)
    ensures Stuck(g, w)
  {
    var p :| IsJam(next, p, w);
    forall i | 1 <= i < |p|
      ensures p[i] in g.nodes
    {
      JamIsHeld(next, p, w, i);
      UnsettledDidntPause(g, next, k, p[i]);
    }
    FirstIsAwake(next, p, w);
    var first := FirstWas(g, next, k, p[0]);
    JamCarries(next, g, p, first, w);
  }

  lemma PauseKeepsStuck(g: Graph, next: Graph, i: nat)
    requires Restful(g) && PauseStep(g, next) && i < |g.nodes|
    ensures i < |next.nodes| && (Stuck(g, g.nodes[i]) <==> Stuck(next, next.nodes[i]))
  {
    var k: nat :| Pauses(g, next, k);
    if Stuck(g, g.nodes[i]) {
      JamStays(g, next, k, g.nodes[i]);
    }
    if Stuck(next, next.nodes[i]) {
      StuckIsUnsettled(next, next.nodes[i]);
      JamWas(g, next, k, next.nodes[i]);
    }
  }

  lemma UnheldCanPause(g: Graph, w: Node)
    requires Restful(g) && w in g.nodes && w.acts && !Settled(w) && !Held(g, w)
    ensures exists next :: PauseStep(g, next)
  {
    var k: nat :| k < |g.nodes| && g.nodes[k] == w;
    var next := g.(nodes := g.nodes[k := Rested(w)]);
    assert Pauses(g, next, k);
    assert PauseStep(g, next);
  }

  /** Pausing unheld workloads one at a time settles one each time, and changes nothing else. */
  lemma {:induction false} PausesGoOn(run: seq<Graph>)
    requires IsPausing(run) && Restful(run[0])
    ensures var last := run[|run| - 1];
            Restful(last) && SameShape(run[0], last) && |Unsettled(last)| + |run| - 1 == |Unsettled(run[0])|
  {
    if |run| > 1 {
      var before, last := run[..|run| - 1], run[|run| - 1];
      PausesGoOn(before);
      assert PauseStep(before[|before| - 1], last);
      PauseSettlesOne(before[|before| - 1], last);
    }
  }

  lemma {:induction false} StuckStays(run: seq<Graph>, i: nat)
    requires IsPausing(run) && Restful(run[0]) && i < |run[0].nodes|
    ensures var last := run[|run| - 1];
            i < |last.nodes| && (Stuck(last, last.nodes[i]) <==> Stuck(run[0], run[0].nodes[i]))
  {
    if |run| > 1 {
      var before, last := run[..|run| - 1], run[|run| - 1];
      PausesGoOn(before);
      StuckStays(before, i);
      assert PauseStep(before[|before| - 1], last);
      PauseKeepsStuck(before[|before| - 1], last, i);
    }
  }

  /** Pauses have gone as far as they can. */
  ghost predicate AtRest(g: Graph) {
    forall next :: !PauseStep(g, next)
  }

  /**
   * However unheld workloads are paused, one at a time and until no more can be: those that end unsettled are exactly
   * those stuck to begin with, behind a live one that a workload in dry-run blocks. So which settle doesn't depend on
   * the order.
   */
  lemma SettlesUnlessStuck(run: seq<Graph>, i: nat)
    requires IsPausing(run) && Restful(run[0]) && AtRest(run[|run| - 1])
    requires i < |run[0].nodes| && run[0].nodes[i].acts
    ensures var last := run[|run| - 1];
            && i < |last.nodes| && last.nodes[i].acts
            && (Settled(last.nodes[i]) <==> !Stuck(run[0], run[0].nodes[i]))
  {
    PausesGoOn(run);
    StuckStays(run, i);
    var last := run[|run| - 1];
    forall x | x in last.nodes && x.acts && !Settled(x)
      ensures Held(last, x)
    {
      if !Held(last, x) {
        UnheldCanPause(last, x);
      }
    }
    if !Settled(last.nodes[i]) {
      LocalCheckSuffices(last);
      AllHeldAreStuck(last, last.nodes[i]);
    }
    assert Stuck(last, last.nodes[i]) ==> !Settled(last.nodes[i]) by {
      if Stuck(last, last.nodes[i]) {
        StuckIsUnsettled(last, last.nodes[i]);
      }
    }
  }

  /** Nobody in dry-run blocks a live workload yet to pause. */
  ghost predicate Unblocked(g: Graph) {
    forall d, w :: Blocks(g, d, w) ==> Settled(w)
  }

  lemma StuckMeansBlocked(g: Graph, w: Node)
    requires Stuck(g, w)
    ensures !Unblocked(g)
  {
    var p :| IsJam(g, p, w);
    assert Blocks(g, p[0], p[1]) && !Settled(p[1..][0]);
  }

  lemma BlockedIsStuck(g: Graph, d: Node, w: Node)
    requires Blocks(g, d, w) && !Settled(w)
    ensures Stuck(g, w)
  {
    assert [d, w][1..] == [w];
    assert IsJam(g, [d, w], w);
  }

  lemma BlockedStaysUp(run: seq<Graph>, i: nat, d: Node)
    requires IsPausing(run) && Restful(run[0]) && AtRest(run[|run| - 1])
    requires i < |run[0].nodes| && Blocks(run[0], d, run[0].nodes[i]) && !Settled(run[0].nodes[i])
    ensures i in Unsettled(run[|run| - 1])
  {
    BlockedIsStuck(run[0], d, run[0].nodes[i]);
    SettlesUnlessStuck(run, i);
  }

  lemma UnsettledIsBlocked(run: seq<Graph>, i: nat)
    requires IsPausing(run) && Restful(run[0]) && AtRest(run[|run| - 1])
    requires i in Unsettled(run[|run| - 1])
    ensures !Unblocked(run[0])
  {
    PausesGoOn(run);
    SettlesUnlessStuck(run, i);
    StuckMeansBlocked(run[0], run[0].nodes[i]);
  }

  /** Pausing ends, and with all settled exactly when nobody in dry-run blocked a live workload yet to pause. */
  lemma PausesEndWithAllSettled(run: seq<Graph>)
    requires IsPausing(run) && Restful(run[0])
    ensures |run| - 1 <= |Unsettled(run[0])|
    ensures AtRest(run[|run| - 1]) ==> (Unsettled(run[|run| - 1]) == {} <==> Unblocked(run[0]))
  {
    PausesGoOn(run);
    var last := run[|run| - 1];
    if AtRest(last) {
      if d, w :| Blocks(run[0], d, w) && !Settled(w) {
        var i: nat :| i < |run[0].nodes| && run[0].nodes[i] == w;
        BlockedStaysUp(run, i, d);
      }
      if i :| i in Unsettled(last) {
        UnsettledIsBlocked(run, i);
      }
    }
  }

  // A fleet that doesn't come to rest

  /** A workload in dry-run that depends on a live one. */
  function MixedFleet(): (Node, Node) {
    var site, db := WorkloadId("shop", Deployment, "site"), WorkloadId("shop", StatefulSet, "db");
    (Node("site", Uid(1), 0, site, Idle, true, true, [db], [], [db]),
     Node("db", Uid(2), 0, db, Idle, true, false, [], [], []))
  }

  lemma MixedFleetOwns()
    ensures var (site, db) := MixedFleet();
            var g := Graph([site, db], map[]);
            ActingOwn(g) && Owner(g, db.target) == Some(db)
  {
    var (site, db) := MixedFleet();
    var nodes := [site, db];
    assert nodes[0] == site && nodes[1] == db;
    assert OwnerUpTo(nodes, site.target, 0) == None && OwnerUpTo(nodes, db.target, 0) == None;
    assert OwnerUpTo(nodes, site.target, 1) == Some(0) && OwnerUpTo(nodes, db.target, 1) == None;
  }

  lemma MixedFleetHasNoCycle(n: Node)
    requires n in [MixedFleet().0, MixedFleet().1]
    ensures !Reach(Graph([MixedFleet().0, MixedFleet().1], map[]), Declared, n, n.target)
  {
    MixedFleetOwns();
    var (site, db) := MixedFleet();
    var view := View(Graph([site, db], map[]), Declared);
    assert forall k, next :: Search.Link(view, k, next) && k == db.target ==> Search.Step(view, db, next);
    if p :| Search.IsPath(view, n, p) && p[|p| - 1] == n.target {
      Search.PathStaysIn(view, n, p, {db.target}, |p| - 1);
    }
  }

  lemma MixedFleetIsRestful()
    ensures var (site, db) := MixedFleet();
            Restful(Graph([site, db], map[])) && Blocks(Graph([site, db], map[]), site, db)
  {
    MixedFleetOwns();
    var (site, db) := MixedFleet();
    var g := Graph([site, db], map[]);
    forall n | n in g.nodes
      ensures !Reach(g, Declared, n, n.target)
    {
      MixedFleetHasNoCycle(n);
    }
    assert g.nodes[0] == site && g.nodes[1] == db;
    assert Relation(g)(site, db);
  }

  /** The live one never pauses, though nothing depends on it but one in dry-run that is Idle, and so settled. */
  lemma MixedFleetStaysUp()
    ensures var (site, db) := MixedFleet();
            var g := Graph([site, db], map[]);
            AtRest(g) && Settled(site) && !Settled(db) && !Unblocked(g)
  {
    MixedFleetIsRestful();
    var (site, db) := MixedFleet();
    var g := Graph([site, db], map[]);
    forall next
      ensures !PauseStep(g, next)
    {
      assert Held(g, db);
    }
  }
}
