/** Breadth-first search from a node along edges to keys, each of which may have an owner whose edges lead on. */
module Search {
  import opened Wrappers

  /** What a search goes by: the edges of each node, those it may follow, and who owns a key. */
  datatype Edges<!K(!new), !N(!new)> = Edges(of: N -> seq<K>, follows: (N, K) -> bool, owner: K -> Option<N>)

  ghost predicate Step<K(!new), N(!new)>(e: Edges<K, N>, n: N, k: K) {
    k in e.of(n) && e.follows(n, k)
  }

  /** k leads on to next: whoever owns k has an edge to next. */
  ghost predicate Link<K(!new), N(!new)>(e: Edges<K, N>, k: K, next: K) {
    e.owner(k).Some? && Step(e, e.owner(k).value, next)
  }

  /** One or more edges from n, each but the first from the owner of the key before. */
  ghost predicate IsPath<K(!new), N(!new)>(e: Edges<K, N>, n: N, p: seq<K>) {
    p != [] && Step(e, n, p[0]) && forall i, j :: 0 <= i && j == i + 1 < |p| ==> Link(e, p[i], p[j])
  }

  ghost predicate Reach<K(!new), N(!new)>(e: Edges<K, N>, n: N, to: K) {
    exists p :: IsPath(e, n, p) && p[|p| - 1] == to
  }

  lemma ReachStep<K(!new), N(!new)>(e: Edges<K, N>, n: N, to: K)
    requires Step(e, n, to)
    ensures Reach(e, n, to)
  {
    assert IsPath(e, n, [to]);
  }

  lemma ReachLink<K(!new), N(!new)>(e: Edges<K, N>, n: N, via: K, to: K)
    requires Reach(e, n, via) && Link(e, via, to)
    ensures Reach(e, n, to)
  {
    var p :| IsPath(e, n, p) && p[|p| - 1] == via;
    assert IsPath(e, n, p + [to]);
  }

  /** Everything on a path from n lies in a set closed under links that has n's own steps. */
  lemma {:induction false} PathStaysIn<K(!new), N(!new)>(e: Edges<K, N>, n: N, p: seq<K>, closed: set<K>, i: nat)
    requires IsPath(e, n, p) && i < |p|
    requires forall k :: Step(e, n, k) ==> k in closed
    requires forall k, next :: k in closed && Link(e, k, next) ==> next in closed
    ensures p[i] in closed
  {
    if i > 0 {
      PathStaysIn(e, n, p, closed, i - 1);
      assert Link(e, p[i - 1], p[i]);
    }
  }

  /** m is where a search from n may go: n itself, or the owner of something n reaches. */
  ghost predicate Leads<K(!new), N(!new)>(e: Edges<K, N>, n: N, m: N) {
    m == n || exists k :: e.owner(k) == Some(m) && Reach(e, n, k)
  }

  lemma LeadsOn<K(!new), N(!new)>(e: Edges<K, N>, n: N, m: N, k: K)
    requires Leads(e, n, m) && Step(e, m, k)
    ensures Reach(e, n, k)
    ensures forall o :: e.owner(k) == Some(o) ==> Leads(e, n, o)
  {
    if m == n {
      ReachStep(e, n, k);
    } else {
      var via :| e.owner(via) == Some(m) && Reach(e, n, via);
      ReachLink(e, n, via, k);
    }
  }

  /** Every edge of m that may be followed has been. */
  ghost predicate Covered<K(!new), N(!new)>(e: Edges<K, N>, m: N, visited: set<K>) {
    forall k :: Step(e, m, k) ==> k in visited
  }

  /** What is visited is within the keys there are and is reached, and what is queued leads there. */
  ghost predicate Sound<K(!new), N(!new)>(e: Edges<K, N>, n: N, universe: set<K>, visited: set<K>, queue: seq<N>) {
    && visited <= universe
    && (forall k :: k in visited ==> Reach(e, n, k))
    && (forall m :: m in queue ==> Leads(e, n, m))
  }

  /** The start, and whoever owns what is visited, is queued or covered already. */
  ghost predicate Complete<K(!new), N(!new)>(e: Edges<K, N>, n: N, visited: set<K>, queue: seq<N>) {
    && (n in queue || Covered(e, n, visited))
    && (forall k :: k in visited && e.owner(k).Some?
          ==> e.owner(k).value in queue || Covered(e, e.owner(k).value, visited))
  }

  /** Finitely many keys can be reached. */
  ghost predicate Bounded<K(!new), N(!new)>(e: Edges<K, N>, n: N, universe: set<K>) {
    forall m, k :: Leads(e, n, m) && Step(e, m, k) ==> k in universe
  }

  /** Follows the edges of next, the node taken off the queue, unless one leads to the key to. */
  method Expand<K(==, !new), N(!new)>(e: Edges<K, N>, ghost n: N, ghost universe: set<K>, next: N, to: K,
                                      seen: set<K>, rest: seq<N>)
    returns (found: bool, visited: set<K>, queue: seq<N>)
    requires Bounded(e, n, universe)
    requires Sound(e, n, universe, seen, [next] + rest) && Complete(e, n, seen, [next] + rest) && to !in seen
    ensures found ==> Reach(e, n, to)
    ensures !found ==> Sound(e, n, universe, visited, queue) && Complete(e, n, visited, queue) && to !in visited
    ensures seen < visited || (visited == seen && queue == rest)
  {
    found, visited, queue := false, seen, rest;
    var edges := e.of(next);
    assert Leads(e, n, next) by { assert next in [next] + rest; }
    for i := 0 to |edges|
      invariant seen < visited || (visited == seen && queue == rest)
      invariant Sound(e, n, universe, visited, queue) && to !in visited
      invariant forall j :: 0 <= j < i && e.follows(next, edges[j]) ==> edges[j] in visited
      invariant forall m :: m in rest ==> m in queue
      invariant forall k :: k in visited && k !in seen && e.owner(k).Some? ==> e.owner(k).value in queue
    {
      var k := edges[i];
      if e.follows(next, k) {
        LeadsOn(e, n, next, k);
        if k == to {
          found := true;
          return;
        }
        if k !in visited {
          visited := visited + {k};
          var owner := e.owner(k);
          if owner.Some? {
            queue := queue + [owner.value];
          }
        }
      }
    }
    NothingLeftOut(e, n, next, seen, rest, visited, queue);
  }

  /** Once next is covered, and what is newly visited is queued for, nothing is left out. */
  lemma NothingLeftOut<K(!new), N(!new)>(e: Edges<K, N>, n: N, next: N, seen: set<K>, rest: seq<N>,
                                         visited: set<K>, queue: seq<N>)
    requires Complete(e, n, seen, [next] + rest) && Covered(e, next, visited)
    requires seen <= visited && forall m :: m in rest ==> m in queue
    requires forall k :: k in visited && k !in seen && e.owner(k).Some? ==> e.owner(k).value in queue
    ensures Complete(e, n, visited, queue)
  {
  }

  /** With nothing queued, a key not visited isn't reached. */
  lemma Exhausted<K(!new), N(!new)>(e: Edges<K, N>, n: N, to: K, visited: set<K>)
    requires Complete(e, n, visited, []) && to !in visited
    ensures !Reach(e, n, to)
  {
    if p :| IsPath(e, n, p) && p[|p| - 1] == to {
      PathStaysIn(e, n, p, visited, |p| - 1);
    }
  }

  /**
   * Whether following edges from n leads to the key to. It terminates whatever cycles there are, given that only
   * finitely many keys can be reached, and finds exactly the keys a path leads to.
   */
  method Reaches<K(==, !new), N(!new)>(e: Edges<K, N>, n: N, to: K, ghost universe: set<K>) returns (found: bool)
    requires Bounded(e, n, universe)
    ensures found <==> Reach(e, n, to)
  {
    var visited: set<K> := {};
    var queue := [n];
    while queue != []
      invariant Sound(e, n, universe, visited, queue) && Complete(e, n, visited, queue) && to !in visited
      decreases universe - visited, |queue|
    {
      assert [queue[0]] + queue[1..] == queue;
      found, visited, queue := Expand(e, n, universe, queue[0], to, visited, queue[1..]);
      if found {
        return;
      }
    }
    Exhausted(e, n, to, visited);
    return false;
  }
}
