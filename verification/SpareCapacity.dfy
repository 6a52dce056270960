/** What node pools have left that no pod requests, from pods as they are or as the cache keeps them. */
module SpareCapacity {
  import opened Placements
  import opened PodRequests
  import opened Shortfall
  import opened Sums
  import opened Wrappers

  datatype Name = Name(n: nat)

  /** schedulable says it's Ready and not cordoned. */
  datatype Node = Node(name: Name, pool: Pool, schedulable: bool, allocatable: Resources)

  /** over says it has succeeded or failed. */
  datatype Pod = Pod(node: Name, over: bool, spec: Spec)

  /** The schedulable nodes by name. */
  function Ready(nodes: seq<Node>): map<Name, Node> {
    if nodes == [] then map[]
    else
      var last, before := nodes[|nodes| - 1], Ready(nodes[..|nodes| - 1]);
      if last.schedulable then before[last.name := last] else before
  }

  function NodeOf(p: Pod): Name {
    p.node
  }

  ghost function Use(d: Dim): Pod -> real {
    (p: Pod) => if p.over then 0.0 else Requests(p.spec).Of(d)
  }

  ghost function UsedOn(pods: seq<Pod>, name: Name, d: Dim): real {
    KeyedSum(pods, NodeOf, name, Use(d))
  }

  /** What a node has left; nothing if its pods request more than it has. */
  ghost function LeftOn(ready: map<Name, Node>, pods: seq<Pod>, d: Dim): Name -> real {
    (name: Name) => if name in ready then Beyond(ready[name].allocatable.Of(d), UsedOn(pods, name, d)) else 0.0
  }

  ghost function NamesIn(ready: map<Name, Node>, p: Pool): set<Name> {
    set name | name in ready && ready[name].pool == p
  }

  ghost function SpareOf(ready: map<Name, Node>, pods: seq<Pod>, d: Dim, p: Pool): real {
    Sum(NamesIn(ready, p), LeftOn(ready, pods, d))
  }

  ghost predicate IsSpare(ready: map<Name, Node>, pods: seq<Pod>, spare: map<Pool, Resources>) {
    && spare.Keys == (set name | name in ready :: ready[name].pool)
    && (forall p, d: Dim :: p in spare ==> spare[p].Of(d) == SpareOf(ready, pods, d, p))
  }

  function Minus(a: Resources, b: Resources): Resources {
    Resources(a.cpu - b.cpu, a.memory - b.memory)
  }

  ghost predicate IsFree(ready: map<Name, Node>, pods: seq<Pod>, free: map<Name, Resources>) {
    && free.Keys == ready.Keys
    && (forall name, d: Dim :: name in ready ==>
          free[name].Of(d) == ready[name].allocatable.Of(d) - UsedOn(pods, name, d))
  }

  lemma PodJoins(ready: map<Name, Node>, pods: seq<Pod>, j: nat, free: map<Name, Resources>)
    requires j < |pods| && IsFree(ready, pods[..j], free)
    ensures var p := pods[j];
            IsFree(ready, pods[..j + 1],
                   if p.node in free && !p.over then free[p.node := Minus(free[p.node], Requests(p.spec))] else free)
  {
    assert pods[..j + 1][..j] == pods[..j];
    forall name, d: Dim
      ensures UsedOn(pods[..j + 1], name, d) ==
                UsedOn(pods[..j], name, d) + (if pods[j].node == name then Use(d)(pods[j]) else 0.0)
    {
    }
  }

  /** What each schedulable node has left, which is less than nothing for one whose pods request more than it has. */
  method FreeByNode(nodes: seq<Node>, pods: seq<Pod>) returns (free: map<Name, Resources>, poolOf: map<Name, Pool>)
    ensures IsFree(Ready(nodes), pods, free)
    ensures poolOf.Keys == Ready(nodes).Keys
    ensures forall name :: name in poolOf ==> poolOf[name] == Ready(nodes)[name].pool
  {
    free, poolOf := map[], map[];
    for i := 0 to |nodes|
      invariant free.Keys == poolOf.Keys == Ready(nodes[..i]).Keys
      invariant forall name :: name in free ==>
                  free[name] == Ready(nodes[..i])[name].allocatable && poolOf[name] == Ready(nodes[..i])[name].pool
    {
      assert nodes[..i + 1][..i] == nodes[..i];
      var n := nodes[i];
      if n.schedulable {
        free, poolOf := free[n.name := n.allocatable], poolOf[n.name := n.pool];
      }
    }
    assert nodes[..|nodes|] == nodes;
    for j := 0 to |pods|
      invariant IsFree(Ready(nodes), pods[..j], free)
    {
      PodJoins(Ready(nodes), pods, j, free);
      var p := pods[j];
      if p.node in free && !p.over {
        var r := Compute(p.spec);
        free := free[p.node := Minus(free[p.node], r)];
      }
    }
    assert pods[..|pods|] == pods;
  }

  /** The spare of the nodes done. */
  ghost predicate IsSpareOf(ready: map<Name, Node>, pods: seq<Pod>, done: set<Name>, spare: map<Pool, Resources>) {
    && spare.Keys == (set name | name in ready && name in done :: ready[name].pool)
    && (forall p, d: Dim :: (if p in spare then spare[p] else ZERO).Of(d) ==
          Sum(NamesIn(ready, p) * done, LeftOn(ready, pods, d)))
  }

  lemma NodeJoins(ready: map<Name, Node>, pods: seq<Pod>, done: set<Name>, spare: map<Pool, Resources>, name: Name,
                  room: Resources)
    requires IsSpareOf(ready, pods, done, spare) && name in ready && name !in done
    requires forall d: Dim :: room.Of(d) == LeftOn(ready, pods, d)(name)
    ensures var p := ready[name].pool;
            IsSpareOf(ready, pods, done + {name}, spare[p := (if p in spare then spare[p] else ZERO).Add(room)])
  {
    var own := ready[name].pool;
    var next := spare[own := (if own in spare then spare[own] else ZERO).Add(room)];
    forall p, d: Dim
      ensures (if p in next then next[p] else ZERO).Of(d)
              == Sum(NamesIn(ready, p) * (done + {name}), LeftOn(ready, pods, d))
    {
      assert (if p in spare then spare[p] else ZERO).Of(d) == Sum(NamesIn(ready, p) * done, LeftOn(ready, pods, d));
      if p == own {
        SumJoins(NamesIn(ready, p) * done, name, LeftOn(ready, pods, d));
        assert NamesIn(ready, p) * (done + {name}) == NamesIn(ready, p) * done + {name};
      } else {
        assert NamesIn(ready, p) * (done + {name}) == NamesIn(ready, p) * done;
      }
    }
  }

  /** What each pool's schedulable nodes have left that no unfinished pod requests. */
  method SpareByPool(nodes: seq<Node>, pods: seq<Pod>) returns (spare: map<Pool, Resources>)
    ensures IsSpare(Ready(nodes), pods, spare)
  {
    var free, poolOf := FreeByNode(nodes, pods);
    ghost var ready := Ready(nodes);
    spare := map[];
    var todo := free.Keys;
    NothingSpare(ready, pods);
    assert free.Keys - todo == {};
    while todo != {}
      invariant todo <= free.Keys
      invariant IsSpareOf(ready, pods, free.Keys - todo, spare)
    {
      var name := Pick(todo);
      var room := free[name].BeyondRoom(ZERO);
      RoomIsLeft(ready, pods, free, name);
      NodeJoins(ready, pods, free.Keys - todo, spare, name, room);
      var p := poolOf[name];
      spare := spare[p := (if p in spare then spare[p] else ZERO).Add(room)];
      assert free.Keys - (todo - {name}) == (free.Keys - todo) + {name};
      todo := todo - {name};
    }
    assert free.Keys - todo == ready.Keys;
    AllSpare(ready, pods, spare);
  }

  lemma NothingSpare(ready: map<Name, Node>, pods: seq<Pod>)
    ensures IsSpareOf(ready, pods, {}, map[])
  {
  }

  lemma RoomIsLeft(ready: map<Name, Node>, pods: seq<Pod>, free: map<Name, Resources>, name: Name)
    requires IsFree(ready, pods, free) && name in ready
    ensures forall d: Dim :: free[name].BeyondRoom(ZERO).Of(d) == LeftOn(ready, pods, d)(name)
  {
  }

  lemma AllSpare(ready: map<Name, Node>, pods: seq<Pod>, spare: map<Pool, Resources>)
    requires IsSpareOf(ready, pods, ready.Keys, spare)
    ensures IsSpare(ready, pods, spare)
  {
    forall p, d: Dim | p in spare
      ensures spare[p].Of(d) == SpareOf(ready, pods, d, p)
    {
      assert NamesIn(ready, p) * ready.Keys == NamesIn(ready, p);
      assert (if p in spare then spare[p] else ZERO).Of(d)
             == Sum(NamesIn(ready, p) * ready.Keys, LeftOn(ready, pods, d));
    }
  }

  // What that is

  /** What a pod still going requests of a node. */
  ghost function Unfinished(name: Name, d: Dim): Pod -> real {
    (p: Pod) => if p.node == name && !p.over then Requests(p.spec).Of(d) else 0.0
  }

  /**
   * The room in a pool on a node: what it can give less what its unfinished pods request, if that's more than nothing.
   */
  ghost function RoomOn(pods: seq<Pod>, p: Pool, d: Dim): Node -> real {
    (n: Node) =>
      var used := SeqSum(pods, Unfinished(n.name, d));
      if n.schedulable && n.pool == p && used < n.allocatable.Of(d) then n.allocatable.Of(d) - used else 0.0
  }

  lemma {:induction false} UsedIsUnfinished(pods: seq<Pod>, name: Name, d: Dim)
    ensures UsedOn(pods, name, d) == SeqSum(pods, Unfinished(name, d))
  {
    if pods != [] {
      UsedIsUnfinished(pods[..|pods| - 1], name, d);
    }
  }

  ghost predicate NamesDiffer(nodes: seq<Node>) {
    forall i, j :: 0 <= i < j < |nodes| ==> nodes[i].name != nodes[j].name
  }

  lemma {:induction false} ReadyIsListed(nodes: seq<Node>)
    ensures forall name :: name in Ready(nodes) ==>
              Ready(nodes)[name] in nodes && Ready(nodes)[name].name == name && Ready(nodes)[name].schedulable
  {
    if nodes != [] {
      ReadyIsListed(nodes[..|nodes| - 1]);
      assert nodes == nodes[..|nodes| - 1] + [nodes[|nodes| - 1]];
    }
  }

  lemma RoomJoins(nodes: seq<Node>, last: Node, pods: seq<Pod>, d: Dim, p: Pool)
    requires last.name !in Ready(nodes) && Ready(nodes + [last]) == Ready(nodes)[last.name := last] && last.schedulable
    ensures SpareOf(Ready(nodes + [last]), pods, d, p) ==
              SpareOf(Ready(nodes), pods, d, p) + RoomOn(pods, p, d)(last)
  {
    var before, all := Ready(nodes), Ready(nodes + [last]);
    UsedIsUnfinished(pods, last.name, d);
    SumSame(NamesIn(before, p), LeftOn(before, pods, d), LeftOn(all, pods, d));
    if last.pool == p {
      assert NamesIn(all, p) == NamesIn(before, p) + {last.name};
      SumJoins(NamesIn(before, p), last.name, LeftOn(all, pods, d));
    } else {
      assert NamesIn(all, p) == NamesIn(before, p);
    }
  }

  /** A pool's spare is the room on its nodes, each on its own. */
  lemma {:induction false} SpareIsRoom(nodes: seq<Node>, pods: seq<Pod>, d: Dim, p: Pool)
    requires NamesDiffer(nodes)
    ensures SpareOf(Ready(nodes), pods, d, p) == SeqSum(nodes, RoomOn(pods, p, d))
  {
    if nodes == [] {
      assert NamesIn(Ready(nodes), p) == {};
    } else {
      var before, last := nodes[..|nodes| - 1], nodes[|nodes| - 1];
      assert before + [last] == nodes;
      SpareIsRoom(before, pods, d, p);
      ReadyIsListed(before);
      if last.schedulable {
        RoomJoins(before, last, pods, d, p);
      } else {
        assert Ready(nodes) == Ready(before);
      }
    }
  }

  // From the cache

  function Kept(p: Pod): Pod {
    p.(spec := Trim(p.spec))
  }

  lemma KeptRequestsSame(p: Pod, d: Dim)
    requires Countable(p.spec)
    ensures Use(d)(Kept(p)) == Use(d)(p)
  {
    TrimKeepsRequests(p.spec);
  }

  lemma KeptUse(pods: seq<Pod>, kept: seq<Pod>, name: Name, d: Dim)
    requires |kept| == |pods| && forall i :: 0 <= i < |pods| ==> Countable(pods[i].spec) && kept[i] == Kept(pods[i])
    ensures UsedOn(kept, name, d) == UsedOn(pods, name, d)
  {
    forall i | 0 <= i < |pods|
      ensures Use(d)(kept[i]) == Use(d)(pods[i]) && NodeOf(kept[i]) == NodeOf(pods[i])
    {
      KeptRequestsSame(pods[i], d);
    }
    KeyedSumSame(kept, pods, NodeOf, name, Use(d));
  }

  /** The spare capacity measured from the cache is what it is. */
  lemma CacheKeepsSpare(nodes: seq<Node>, pods: seq<Pod>, kept: seq<Pod>, spare: map<Pool, Resources>)
    requires |kept| == |pods| && forall i :: 0 <= i < |pods| ==> Countable(pods[i].spec) && kept[i] == Kept(pods[i])
    requires IsSpare(Ready(nodes), kept, spare)
    ensures IsSpare(Ready(nodes), pods, spare)
  {
    var ready := Ready(nodes);
    forall p, d: Dim | p in spare
      ensures spare[p].Of(d) == SpareOf(ready, pods, d, p)
    {
      forall name
        ensures LeftOn(ready, kept, d)(name) == LeftOn(ready, pods, d)(name)
      {
        KeptUse(pods, kept, name, d);
      }
      SumSame(NamesIn(ready, p), LeftOn(ready, kept, d), LeftOn(ready, pods, d));
    }
  }

  /** No pool has less than nothing spare, however much pods request. */
  lemma SpareIsNonNegative(ready: map<Name, Node>, pods: seq<Pod>, spare: map<Pool, Resources>)
    requires IsSpare(ready, pods, spare)
    ensures forall p, d: Dim :: p in spare ==> spare[p].Of(d) >= 0.0
  {
    forall p, d: Dim | p in spare
      ensures spare[p].Of(d) >= 0.0
    {
      SumCompares(NamesIn(ready, p), name => 0.0, LeftOn(ready, pods, d));
      ZeroSum(NamesIn(ready, p), name => 0.0);
    }
  }
}
