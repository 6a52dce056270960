/** The graph of ManagedWorkloads one reconcile reads, and reachability in it. */
module WorkloadGraph {
  import opened Text
  import opened WorkloadIds
  import opened Workloads
  import opened Wrappers
  import Search

  datatype Phase = Creating | Running | Idle | Pausing | Paused | Resuming

  /** What the graph reads of a ManagedWorkload. */
  datatype ManagedWorkload = ManagedWorkload(
    ns: string, name: string, uid: Uid, created: int, target: WorkloadId, phase: Phase, acts: bool, dryRun: bool,
    dependsOn: seq<Ref>, learned: seq<Ref>)

  datatype Node = Node(
    name: string, uid: Uid, created: int, target: WorkloadId, phase: Phase, acts: bool, dryRun: bool,
    dependsOn: seq<WorkloadId>, waitsFor: seq<WorkloadId>, dependencies: seq<WorkloadId>)

  datatype EdgeKind = Declared | WaitForReady | All

  /** The nodes, and the napwake.dev/dependents-from of the namespaces that have one. */
  datatype Graph = Graph(nodes: seq<Node>, dependentsFrom: map<string, string>)

  function Waiting(refs: seq<Ref>): (waiting: seq<Ref>)
    ensures forall r :: r in waiting <==> r in refs && r.waitForReady
  {
    if refs == [] then []
    else (if refs[0].waitForReady then [refs[0]] else []) + Waiting(refs[1..])
  }

  /** The learned refs that resolve to nothing already listed, in order. */
  function Unlisted(ns: string, listed: seq<Ref>, learned: seq<Ref>): (added: seq<Ref>)
    ensures forall r :: r in added ==> r in learned
    decreases learned
  {
    if learned == [] then []
    else if DependencyId(ns, learned[0]) in Ids(ns, listed) then Unlisted(ns, listed, learned[1..])
    else [learned[0]] + Unlisted(ns, listed + [learned[0]], learned[1..])
  }

  /** With those already listed, they are all that was learned. */
  lemma {:induction false} UnlistedIsTheRest(ns: string, listed: seq<Ref>, learned: seq<Ref>, r: Ref)
    requires r in learned
    ensures DependencyId(ns, r) in Ids(ns, listed + Unlisted(ns, listed, learned))
    decreases learned
  {
    var first, rest := learned[0], learned[1..];
    assert learned == [first] + rest;
    if DependencyId(ns, first) in Ids(ns, listed) {
      var i :| 0 <= i < |listed| && Ids(ns, listed)[i] == DependencyId(ns, first);
      assert Ids(ns, listed + Unlisted(ns, listed, learned))[i] == DependencyId(ns, first);
      if r != first {
        UnlistedIsTheRest(ns, listed, rest, r);
      }
    } else {
      var added := Unlisted(ns, listed + [first], rest);
      assert listed + ([first] + added) == listed + [first] + added;
      assert Ids(ns, listed + [first] + added)[|listed|] == DependencyId(ns, first);
      if r != first {
        UnlistedIsTheRest(ns, listed + [first], rest, r);
      }
    }
  }

  /** The node kept of w: everything it waits for it declares, and everything it declares is a dependency. */
  function NodeOf(w: ManagedWorkload): (n: Node)
    ensures forall id :: id in n.waitsFor ==> id in n.dependsOn
    ensures forall id :: id in n.dependsOn ==> id in n.dependencies
  {
    var refs := w.dependsOn + Unlisted(w.ns, w.dependsOn, w.learned);
    var dependsOn, waitsFor, dependencies := Ids(w.ns, w.dependsOn), Ids(w.ns, Waiting(w.dependsOn)), Ids(w.ns, refs);
    assert forall i :: 0 <= i < |waitsFor| ==> Waiting(w.dependsOn)[i] in w.dependsOn;
    assert forall i :: 0 <= i < |w.dependsOn| ==> dependencies[i] == dependsOn[i];
    Node(w.name, w.uid, w.created, w.target, w.phase, w.acts, w.dryRun, dependsOn, waitsFor, dependencies)
  }

  /** Its dependencies are exactly what it declares and what has been learned of it. */
  lemma NodeDependsOn(w: ManagedWorkload, id: WorkloadId)
    ensures id in NodeOf(w).dependencies <==> id in Ids(w.ns, w.dependsOn) || id in Ids(w.ns, w.learned)
  {
    var added := Unlisted(w.ns, w.dependsOn, w.learned);
    if i :| 0 <= i < |w.learned| && Ids(w.ns, w.learned)[i] == id {
      UnlistedIsTheRest(w.ns, w.dependsOn, w.learned, w.learned[i]);
    }
    if i :| 0 <= i < |w.dependsOn + added| && NodeOf(w).dependencies[i] == id {
      var r := (w.dependsOn + added)[i];
      if i < |w.dependsOn| {
        assert Ids(w.ns, w.dependsOn)[i] == id;
      } else {
        assert r in added;
        var j :| 0 <= j < |w.learned| && w.learned[j] == r;
        assert Ids(w.ns, w.learned)[j] == id;
      }
    }
  }

  /** And it declares just what its spec does, and waits for just those marked so. */
  lemma NodeDeclares(w: ManagedWorkload, id: WorkloadId)
    ensures id in NodeOf(w).dependsOn <==> exists r :: r in w.dependsOn && DependencyId(w.ns, r) == id
    ensures id in NodeOf(w).waitsFor <==>
              exists r :: r in w.dependsOn && r.waitForReady && DependencyId(w.ns, r) == id
    ensures var n := NodeOf(w);
            && (n.uid, n.created, n.target, n.phase) == (w.uid, w.created, w.target, w.phase)
            && n.acts == w.acts && n.dryRun == w.dryRun
  {
    IdsAre(w.ns, w.dependsOn, id);
    IdsAre(w.ns, Waiting(w.dependsOn), id);
  }

  lemma IdsAre(ns: string, refs: seq<Ref>, id: WorkloadId)
    ensures id in Ids(ns, refs) <==> exists r :: r in refs && DependencyId(ns, r) == id
  {
    if r :| r in refs && DependencyId(ns, r) == id {
      var i :| 0 <= i < |refs| && refs[i] == r;
      assert Ids(ns, refs)[i] == id;
    }
  }

  function Edges(kind: EdgeKind, n: Node): seq<WorkloadId> {
    match kind
    case Declared => n.dependsOn
    case WaitForReady => n.waitsFor
    case All => n.dependencies
  }

  /** Every node is one NodeOf could have made, and UIDs are unique. */
  ghost predicate WellFormed(g: Graph) {
    && (forall n, id :: n in g.nodes && id in n.dependsOn ==> id in n.dependencies)
    && (forall n, id :: n in g.nodes && id in n.waitsFor ==> id in n.dependsOn)
    && (forall i, j :: 0 <= i < j < |g.nodes| ==> g.nodes[i].uid != g.nodes[j].uid)
  }

  /** Whether a dependents-from value lets workloads in ns depend on those beside it. */
  predicate AllowsDependentsFrom(value: string, ns: string) {
    AnyAllows(Split(value, ','), ns)
  }

  predicate AnyAllows(entries: seq<string>, ns: string) {
    entries != [] && (Trim(entries[0]) == "*" || Trim(entries[0]) == ns || AnyAllows(entries[1..], ns))
  }

  /** Some entry of the value is the namespace, or any. */
  ghost predicate Lists(value: string, ns: string) {
    exists entry :: entry in Split(value, ',') && (Trim(entry) == "*" || Trim(entry) == ns)
  }

  lemma {:induction false} AnyAllowsMeans(entries: seq<string>, ns: string)
    ensures AnyAllows(entries, ns) <==> exists entry :: entry in entries && (Trim(entry) == "*" || Trim(entry) == ns)
  {
    if entries != [] {
      AnyAllowsMeans(entries[1..], ns);
      assert entries == [entries[0]] + entries[1..];
      assert entries[0] in entries;
    }
  }

  lemma AllowsWhatItLists(value: string, ns: string)
    ensures AllowsDependentsFrom(value, ns) <==> Lists(value, ns)
  {
    AnyAllowsMeans(Split(value, ','), ns);
  }

  predicate Allows(g: Graph, ns: string, id: WorkloadId) {
    id.ns == ns || (AllowsDependentsFrom(if id.ns in g.dependentsFrom then g.dependentsFrom[id.ns] else "", ns))
  }

  predicate ClaimedBefore(a: Node, b: Node) {
    a.created < b.created || (a.created == b.created && a.uid.n < b.uid.n)
  }

  /** The index of the first claimant of id among the first n nodes, by creation and then UID. */
  function OwnerUpTo(nodes: seq<Node>, id: WorkloadId, n: nat): (owner: Option<nat>)
    requires n <= |nodes|
    ensures owner.Some? ==> owner.value < n && nodes[owner.value].target == id
    ensures owner.None? ==> forall i :: 0 <= i < n ==> nodes[i].target != id
    ensures owner.Some? ==>
              forall i :: 0 <= i < n && nodes[i].target == id ==> !ClaimedBefore(nodes[i], nodes[owner.value])
  {
    if n == 0 then None
    else
      var best := OwnerUpTo(nodes, id, n - 1);
      if nodes[n - 1].target == id && (best.None? || ClaimedBefore(nodes[n - 1], nodes[best.value])) then Some(n - 1)
      else best
  }

  /** The oldest of those with the target owns it, and of those of an age the first by UID. */
  function Owner(g: Graph, id: WorkloadId): (owner: Option<Node>)
    ensures owner.Some? ==> owner.value in g.nodes && owner.value.target == id
    ensures owner.Some? ==>
              forall n :: n in g.nodes && n.target == id ==>
                owner.value.created < n.created
                || (owner.value.created == n.created && owner.value.uid.n <= n.uid.n)
    ensures owner.None? ==> forall n :: n in g.nodes ==> n.target != id
  {
    var i := OwnerUpTo(g.nodes, id, |g.nodes|);
    assert i.Some? ==> forall n :: n in g.nodes && n.target == id ==> !ClaimedBefore(n, g.nodes[i.value]) by {
      assert forall n :: n in g.nodes ==> exists j :: 0 <= j < |g.nodes| && g.nodes[j] == n;
    }
    if i.Some? then Some(g.nodes[i.value]) else None
  }

  /** The search the code makes: an edge to a node's own target, or one not allowed, is no edge. */
  function View(g: Graph, kind: EdgeKind): Search.Edges<WorkloadId, Node> {
    Search.Edges(
      (n: Node) => Edges(kind, n),
      (n: Node, id: WorkloadId) => id != n.target && Allows(g, n.target.ns, id),
      (id: WorkloadId) => Owner(g, id))
  }

  /** id is an edge of n that reaches follows. */
  ghost predicate Step(g: Graph, kind: EdgeKind, n: Node, id: WorkloadId) {
    Search.Step(View(g, kind), n, id)
  }

  /** An edge, as its kind has it, to another workload than its own that lets the node's namespace depend on it. */
  lemma StepMeans(g: Graph, n: Node, id: WorkloadId)
    ensures var allowed := id != n.target && (id.ns == n.target.ns ||
                             Lists(if id.ns in g.dependentsFrom then g.dependentsFrom[id.ns] else "", n.target.ns));
            && (Step(g, Declared, n, id) <==> id in n.dependsOn && allowed)
            && (Step(g, WaitForReady, n, id) <==> id in n.waitsFor && allowed)
            && (Step(g, All, n, id) <==> id in n.dependencies && allowed)
  {
    AllowsWhatItLists(if id.ns in g.dependentsFrom then g.dependentsFrom[id.ns] else "", n.target.ns);
  }

  /** Following one or more edges from n, through owned workloads, leads to the workload to. */
  ghost predicate Reach(g: Graph, kind: EdgeKind, n: Node, to: WorkloadId) {
    Search.Reach(View(g, kind), n, to)
  }

  /** The workloads the graph's nodes, and n, have edges to. */
  ghost function Mentioned(g: Graph, kind: EdgeKind, n: Node): set<WorkloadId> {
    set m, id | m in [n] + g.nodes && id in Edges(kind, m) :: id
  }

  /** Whether following the edges from n leads to the workload to. */
  method Reaches(g: Graph, kind: EdgeKind, n: Node, to: WorkloadId) returns (found: bool)
    ensures found <==> Reach(g, kind, n, to)
  {
    ghost var universe := Mentioned(g, kind, n);
    forall m, id | Search.Leads(View(g, kind), n, m) && Step(g, kind, m, id)
      ensures id in universe
    {
      assert m in [n] + g.nodes;
    }
    found := Search.Reaches(View(g, kind), n, to, universe);
  }
}
