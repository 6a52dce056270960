/**
 * Which workloads take a namespace's depends-on list, found by a search through what the list's workloads depend on.
 */
module Inheritance {
  import opened Chains
  import opened Wrappers

  /**
   * A namespace: its list, what each workload's own depends-on lists, and which workload of this namespace, if any, a
   * dependency names.
   */
  datatype Lists<!K(!new), !D(!new)> = Lists(shared: seq<D>, own: K -> seq<D>, local: D -> Option<K>)

  ghost predicate Names<K(!new), D(!new)>(l: Lists<K, D>, deps: seq<D>, k: K) {
    exists d :: d in deps && l.local(d) == Some(k)
  }

  /** From a workload the list names, by workloads' own lists. */
  ghost predicate IsTrail<K(!new), D(!new)>(l: Lists<K, D>, p: seq<K>) {
    p != [] && Names(l, l.shared, p[0]) && forall i, j :: 0 <= i && j == i + 1 < |p| ==> Names(l, l.own(p[i]), p[j])
  }

  /** The list names k, or something it names depends on k, directly or through others. */
  ghost predicate Listed<K(!new), D(!new)>(l: Lists<K, D>, k: K) {
    exists p :: IsTrail(l, p) && p[|p| - 1] == k
  }

  lemma ListedFirst<K(!new), D(!new)>(l: Lists<K, D>, k: K)
    requires Names(l, l.shared, k)
    ensures Listed(l, k)
  {
    assert IsTrail(l, [k]);
  }

  lemma ListedOn<K(!new), D(!new)>(l: Lists<K, D>, via: K, k: K)
    requires Listed(l, via) && Names(l, l.own(via), k)
    ensures Listed(l, k)
  {
    var p :| IsTrail(l, p) && p[|p| - 1] == via;
    assert IsTrail(l, p + [k]);
  }

  ghost predicate Sound<K(!new), D(!new)>(l: Lists<K, D>, visited: set<K>, queue: seq<D>) {
    && (forall k :: k in visited ==> Listed(l, k))
    && (forall d :: d in queue && l.local(d).Some? ==> Listed(l, l.local(d).value))
  }

  /** What a list names is visited, or queued for. */
  ghost predicate Taken<K(!new), D(!new)>(l: Lists<K, D>, deps: seq<D>, visited: set<K>, queue: seq<D>) {
    forall d :: d in deps && l.local(d).Some? ==> l.local(d).value in visited || d in queue
  }

  ghost predicate Complete<K(!new), D(!new)>(l: Lists<K, D>, visited: set<K>, queue: seq<D>) {
    && Taken(l, l.shared, visited, queue)
    && (forall k :: k in visited ==> Taken(l, l.own(k), visited, queue))
  }

  lemma Queues<K(!new), D(!new)>(l: Lists<K, D>, ref: K, visited: set<K>, queue: seq<D>)
    requires Sound(l, visited, queue) && Listed(l, ref)
    ensures Sound(l, visited + {ref}, queue + l.own(ref))
  {
    forall d | d in l.own(ref) && l.local(d).Some?
      ensures Listed(l, l.local(d).value)
    {
      ListedOn(l, ref, l.local(d).value);
    }
  }

  /** Once dep, first in the queue, is dealt with. */
  lemma Dequeues<K(!new), D(!new)>(l: Lists<K, D>, visited: set<K>, dep: D, rest: seq<D>, next: set<K>, queue: seq<D>)
    requires Complete(l, visited, [dep] + rest) && visited <= next
    requires l.local(dep).Some? ==> l.local(dep).value in next
    requires forall d :: d in rest ==> d in queue
    requires forall k :: k in next && k !in visited ==> Taken(l, l.own(k), next, queue)
    ensures Complete(l, next, queue)
  {
  }

  lemma {:induction false} TrailIsVisited<K(!new), D(!new)>(l: Lists<K, D>, p: seq<K>, visited: set<K>, i: nat)
    requires IsTrail(l, p) && i < |p| && Complete(l, visited, [])
    ensures p[i] in visited
  {
    if i > 0 {
      TrailIsVisited(l, p, visited, i - 1);
      assert Names(l, l.own(p[i - 1]), p[i]);
    }
  }

  lemma Exhausted<K(!new), D(!new)>(l: Lists<K, D>, visited: set<K>, target: K)
    requires Complete(l, visited, []) && target !in visited
    ensures !Listed(l, target)
  {
    if p :| IsTrail(l, p) && p[|p| - 1] == target {
      TrailIsVisited(l, p, visited, |p| - 1);
    }
  }

  /** Finitely many workloads are named. */
  ghost predicate Bounded<K(!new), D(!new)>(l: Lists<K, D>, universe: set<K>) {
    forall k :: Listed(l, k) ==> k in universe
  }

  /** Whether the target takes the namespace's list: unless it's among what the list's workloads come to depend on. */
  method InheritsDependsOn<K(==, !new), D(!new)>(l: Lists<K, D>, target: K, ghost universe: set<K>)
    returns (inherits: bool)
    requires Bounded(l, universe)
    ensures inherits <==> !Listed(l, target)
  {
    var queue := l.shared;
    var visited: set<K> := {};
    forall d | d in queue && l.local(d).Some?
      ensures Listed(l, l.local(d).value)
    {
      ListedFirst(l, l.local(d).value);
    }
    while queue != []
      invariant Sound(l, visited, queue) && Complete(l, visited, queue)
      invariant visited <= universe && target !in visited
      decreases universe - visited, |queue|
    {
      var dep := queue[0];
      ghost var before := visited;
      ghost var rest := queue[1..];
      assert queue == [dep] + rest;
      queue := queue[1..];
      var local := l.local(dep);
      if local.None? {
        Dequeues(l, before, dep, rest, visited, queue);
        continue;
      }
      var ref := local.value;
      if ref == target {
        return false;
      }
      if ref in visited {
        Dequeues(l, before, dep, rest, visited, queue);
        continue;
      }
      Queues(l, ref, visited, queue);
      visited := visited + {ref};
      queue := queue + l.own(ref);
      Dequeues(l, before, dep, rest, visited, queue);
    }
    Exhausted(l, visited, target);
    return true;
  }

  // No cycle through the list

  /**
   * What workloads come to depend on in their namespace: some of what their own lists name or, of those that take the
   * namespace's list, some of what that names.
   */
  ghost predicate Follows<K(!new), D(!new)>(l: Lists<K, D>, takes: K -> bool, depends: (K, K) -> bool) {
    && (forall k, m :: depends(k, m) ==> if takes(k) then Names(l, l.shared, m) else Names(l, l.own(k), m))
    && (forall k :: takes(k) ==> !Listed(l, k))
  }

  /** On the rest of a chain past a workload that takes the list, each is listed. */
  lemma {:induction false} ChainIsListed<K(!new), D(!new)>(l: Lists<K, D>, takes: K -> bool, depends: (K, K) -> bool,
                                                           p: seq<K>, i: nat, j: nat)
    requires Follows(l, takes, depends) && IsChain(depends, p) && i < j < |p| && takes(p[i])
    ensures Listed(l, p[j])
  {
    assert depends(p[j - 1], p[j]);
    if takes(p[j - 1]) {
      ListedFirst(l, p[j]);
    } else {
      ChainIsListed(l, takes, depends, p, i, j - 1);
      ListedOn(l, p[j - 1], p[j]);
    }
  }

  lemma {:induction false} ListedGoesOn<K(!new), D(!new)>(l: Lists<K, D>, takes: K -> bool, depends: (K, K) -> bool,
                                                          p: seq<K>, j: nat)
    requires Follows(l, takes, depends) && IsChain(depends, p) && j < |p| && Listed(l, p[0])
    ensures Listed(l, p[j])
  {
    if j > 0 {
      ListedGoesOn(l, takes, depends, p, j - 1);
      assert depends(p[j - 1], p[j]);
      if takes(p[j - 1]) {
        ListedFirst(l, p[j]);
      } else {
        ListedOn(l, p[j - 1], p[j]);
      }
    }
  }

  /** No workload on a cycle within the namespace takes its list: every edge of one is a workload's own. */
  lemma CyclesAreOwn<K(!new), D(!new)>(l: Lists<K, D>, takes: K -> bool, depends: (K, K) -> bool, p: seq<K>, i: nat)
    requires Follows(l, takes, depends) && IsCycle(depends, p) && i < |p|
    ensures !takes(p[i])
  {
    if takes(p[i]) {
      if i < |p| - 1 {
        ChainIsListed(l, takes, depends, p, i, |p| - 1);
        ListedGoesOn(l, takes, depends, p, i);
      } else {
        ChainIsListed(l, takes, depends, p, 0, i);
      }
    }
  }
}
