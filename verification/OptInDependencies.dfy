/** What opted-in workloads depend on: by their own annotation, or their namespace's. */
module OptInDependencies {
  import opened Chains
  import opened DependsOn
  import opened Inheritance
  import opened Lists = Lists
  import opened Text
  import opened WorkloadIds
  import opened Wrappers

  /** Which annotation a value is on. */
  datatype Level = OnWorkload | OnNamespace

  datatype Outcome = Used(on: Level) | DefaultUsed | EntrySkipped | OnlyFirstUsed

  /** A value, or an entry of one, that couldn't be used as it stands, and what was done instead. */
  datatype Problem = Problem(value: string, on: Level, outcome: Outcome)

  /** A value that's used: it has an entry that can be read, or none at all. */
  predicate Accepted(value: string) {
    Deps(value) != [] || Bad(value) == []
  }

  /** The first value accepted, the workload's before its namespace's. */
  function Chosen(own: Option<string>, inherited: Option<string>): Option<(Level, string)> {
    if own.Some? && Accepted(Trim(own.value)) then Some((OnWorkload, Trim(own.value)))
    else if inherited.Some? && Accepted(Trim(inherited.value)) then Some((OnNamespace, Trim(inherited.value)))
    else None
  }

  function Capped(deps: seq<Ref>): seq<Ref> {
    if |deps| > MAX_DEPENDS_ON then deps[..MAX_DEPENDS_ON] else deps
  }

  function Resolved(own: Option<string>, inherited: Option<string>): seq<Ref> {
    var c := Chosen(own, inherited);
    if c.Some? then Capped(Deps(c.value.1)) else []
  }

  function OutcomeOf(own: Option<string>, inherited: Option<string>): Outcome {
    var c := Chosen(own, inherited);
    if c.Some? then Used(c.value.0) else DefaultUsed
  }

  function Skips(bad: seq<string>, on: Level): seq<Problem> {
    seq(|bad|, i requires 0 <= i < |bad| => Problem(bad[i], on, EntrySkipped))
  }

  /** What's reported of a value as it's read. */
  function Reported(value: string, on: Level): seq<Problem> {
    if !Accepted(value) then []
    else Skips(Bad(value), on) + if |Deps(value)| > MAX_DEPENDS_ON then [Problem(value, on, OnlyFirstUsed)] else []
  }

  /** The value, if it's one to reject. */
  function RejectedOf(value: Option<string>, on: Level): seq<(string, Level)> {
    if value.Some? && !Accepted(Trim(value.value)) then [(Trim(value.value), on)] else []
  }

  /** The values rejected before one was accepted. */
  function Rejected(own: Option<string>, inherited: Option<string>): seq<(string, Level)> {
    if own.Some? && Accepted(Trim(own.value)) then []
    else RejectedOf(own, OnWorkload) + RejectedOf(inherited, OnNamespace)
  }

  function WithOutcome(rejected: seq<(string, Level)>, outcome: Outcome): seq<Problem> {
    seq(|rejected|, i requires 0 <= i < |rejected| => Problem(rejected[i].0, rejected[i].1, outcome))
  }

  /** What's reported: each value rejected, with where the setting came from instead, then of the one accepted. */
  function Problems(own: Option<string>, inherited: Option<string>): seq<Problem> {
    var c := Chosen(own, inherited);
    WithOutcome(Rejected(own, inherited), OutcomeOf(own, inherited)) +
    if c.Some? then Reported(c.value.1, c.value.0) else []
  }

  method SkipAll(bad: seq<string>, on: Level) returns (problems: seq<Problem>)
    ensures problems == Skips(bad, on)
  {
    problems := [];
    for i := 0 to |bad|
      invariant problems == Skips(bad[..i], on)
    {
      problems := problems + [Problem(bad[i], on, EntrySkipped)];
    }
  }

  /** Reads one value: whether it's used, for which dependencies, and what's wrong with it. */
  method ReadValue(value: string, on: Level) returns (accepted: bool, deps: seq<Ref>, problems: seq<Problem>)
    ensures accepted <==> Accepted(value)
    ensures deps == if accepted then Capped(Deps(value)) else []
    ensures problems == Reported(value, on)
  {
    var bad: seq<string>;
    deps, bad := ParseDependencies(value);
    if |deps| == 0 && |bad| > 0 {
      return false, deps, [];
    }
    problems := SkipAll(bad, on);
    if |deps| > MAX_DEPENDS_ON {
      problems := problems + [Problem(value, on, OnlyFirstUsed)];
      deps := deps[..MAX_DEPENDS_ON];
    }
    accepted := true;
  }

  /** Offers the workload's value, then its namespace's, until one is accepted. */
  method Dependencies(own: Option<string>, inherited: Option<string>) returns (deps: seq<Ref>, problems: seq<Problem>)
    ensures deps == Resolved(own, inherited) && problems == Problems(own, inherited)
  {
    deps, problems := [], [];
    var rejected: seq<(string, Level)> := [];
    var outcome := DefaultUsed;
    var accepted := false;
    if own.Some? {
      var value := Trim(own.value);
      accepted, deps, problems := ReadValue(value, OnWorkload);
      if accepted {
        outcome := Used(OnWorkload);
      } else {
        rejected := [(value, OnWorkload)];
      }
    }
    if !accepted && inherited.Some? {
      var value := Trim(inherited.value);
      accepted, deps, problems := ReadValue(value, OnNamespace);
      if accepted {
        outcome := Used(OnNamespace);
      } else {
        rejected := rejected + [(value, OnNamespace)];
      }
    }
    assert rejected == Rejected(own, inherited) && outcome == OutcomeOf(own, inherited);
    problems := WithOutcome(rejected, outcome) + problems;
  }

  /**
   * Nothing an annotation lists is dropped unsaid: without a problem reported, the dependencies are all that the
   * workload's annotation lists or, if it has none, its namespace's.
   */
  lemma NothingDroppedUnsaid(own: Option<string>, inherited: Option<string>)
    requires Problems(own, inherited) == []
    ensures var value := if own.Some? then own else inherited;
            if value.None? then Resolved(own, inherited) == []
            else Resolved(own, inherited) == Deps(Trim(value.value)) && Bad(Trim(value.value)) == []
  {
  }

  // A namespace's workloads

  datatype Target = Target(kind: Kind, name: string)

  /** A namespace's depends-on, and each of its workloads' own. */
  datatype Namespace = Namespace(name: string, dependsOn: Option<string>, workloads: map<Target, Option<string>>)

  function OwnValue(n: Namespace, t: Target): Option<string> {
    if t in n.workloads then n.workloads[t] else None
  }

  function DepsOf(value: Option<string>): seq<Ref> {
    if value.Some? then Deps(Trim(value.value)) else []
  }

  /** The workload of the namespace a dependency names. */
  function LocalIn(n: Namespace): Ref -> Option<Target> {
    (d: Ref) => if d.ns == "" || d.ns == n.name then Some(Target(d.kind, d.name)) else None
  }

  function OwnIn(n: Namespace): Target -> seq<Ref> {
    (t: Target) => DepsOf(OwnValue(n, t))
  }

  /** All that's listed in the namespace, as a search for what inherits sees it. */
  function ListsOf(n: Namespace): Inheritance.Lists<Target, Ref> {
    Inheritance.Lists(DepsOf(n.dependsOn), OwnIn(n), LocalIn(n))
  }

  ghost predicate Inherits(n: Namespace, t: Target) {
    n.dependsOn.None? || !Listed(ListsOf(n), t)
  }

  ghost function InheritedValue(n: Namespace, t: Target): Option<string> {
    if Inherits(n, t) then n.dependsOn else None
  }

  predicate IsSelf(n: Namespace, t: Target, d: Ref) {
    (d.ns == "" || d.ns == n.name) && d.kind == t.kind && d.name == t.name
  }

  function NotSelf(n: Namespace, t: Target): Ref -> seq<Ref> {
    (d: Ref) => if IsSelf(n, t, d) then [] else [d]
  }

  /** What a workload comes to depend on, never itself. */
  ghost function Effective(n: Namespace, t: Target): seq<Ref> {
    Flat(Resolved(OwnValue(n, t), InheritedValue(n, t)), NotSelf(n, t))
  }

  /** What's used is the workload's value, or else its namespace's, if that has something to use or lists nothing. */
  lemma FirstUsableIsChosen(own: Option<string>, inherited: Option<string>, v: string)
    ensures Chosen(own, inherited) == Some((OnWorkload, v)) <==>
              own.Some? && v == Trim(own.value) && (Deps(v) != [] || Bad(v) == [])
    ensures Chosen(own, inherited) == Some((OnNamespace, v)) <==>
              && inherited.Some? && v == Trim(inherited.value) && (Deps(v) != [] || Bad(v) == [])
              && (own.Some? ==> Deps(Trim(own.value)) == [] && Bad(Trim(own.value)) != [])
  {
  }

  /** The first twenty of what it lists are, and all of it if that's no more. */
  lemma ResolvedIsListed(own: Option<string>, inherited: Option<string>)
    ensures var deps, used := Resolved(own, inherited), Chosen(own, inherited);
            && (used.None? ==> deps == [])
            && (used.Some? ==>
                  var listed := Deps(used.value.1);
                  deps <= listed && |deps| == if |listed| < 20 then |listed| else 20)
  {
    var used := Chosen(own, inherited);
    if used.Some? {
      CappedIsFirst(Deps(used.value.1));
    }
  }

  lemma CappedIsFirst(deps: seq<Ref>)
    ensures Capped(deps) <= deps && |Capped(deps)| == if |deps| < 20 then |deps| else 20
  {
  }

  function Trimmed(value: Option<string>): Option<string> {
    if value.Some? then Some(Trim(value.value)) else None
  }

  /** Of values, one there was before the one used. */
  predicate IsRefused(own: Option<string>, inherited: Option<string>, used: Option<(Level, string)>, p: Problem) {
    if p.on.OnWorkload? then own == Some(p.value) && (used.None? || used.value.0 == OnNamespace)
    else inherited == Some(p.value) && used.None?
  }

  lemma ProblemsSplit(own: Option<string>, inherited: Option<string>, p: Problem)
    ensures var c := Chosen(own, inherited);
            p in Problems(own, inherited) <==>
              || p in WithOutcome(Rejected(own, inherited), OutcomeOf(own, inherited))
              || (c.Some? && p in Reported(c.value.1, c.value.0))
  {
  }

  lemma ReportedMeans(value: string, on: Level, p: Problem)
    requires Accepted(value)
    ensures p in Reported(value, on) <==>
              || (p.on == on && p.outcome == EntrySkipped && p.value in Bad(value))
              || (p == Problem(value, on, OnlyFirstUsed) && |Deps(value)| > 20)
  {
    var bad := Bad(value);
    if i :| 0 <= i < |bad| && bad[i] == p.value {
      assert Skips(bad, on)[i] == Problem(bad[i], on, EntrySkipped);
    }
  }

  lemma WithOutcomeMeans(rejected: seq<(string, Level)>, outcome: Outcome, p: Problem)
    ensures p in WithOutcome(rejected, outcome) <==> p.outcome == outcome && (p.value, p.on) in rejected
  {
    if i :| 0 <= i < |rejected| && rejected[i] == (p.value, p.on) && p.outcome == outcome {
      assert WithOutcome(rejected, outcome)[i] == p;
    }
  }

  function Only(value: Option<string>, on: Level): seq<(string, Level)> {
    if value.Some? then [(value.value, on)] else []
  }

  lemma RefusalsAre(own: Option<string>, inherited: Option<string>, used: Option<(Level, string)>,
                    rejected: seq<(string, Level)>, p: Problem)
    requires if used.None? then rejected == Only(own, OnWorkload) + Only(inherited, OnNamespace)
             else rejected == if used.value.0 == OnWorkload then [] else Only(own, OnWorkload)
    ensures (p.value, p.on) in rejected <==> IsRefused(own, inherited, used, p)
  {
  }

  lemma RejectedAre(own: Option<string>, inherited: Option<string>)
    ensures var used, rejected := Chosen(own, inherited), Rejected(own, inherited);
            if used.None? then rejected == Only(Trimmed(own), OnWorkload) + Only(Trimmed(inherited), OnNamespace)
            else rejected == if used.value.0 == OnWorkload then [] else Only(Trimmed(own), OnWorkload)
  {
  }

  /**
   * What's reported is just this: each entry the value used has that can't be read, that it's cut short, and each value
   * refused before it, with where the setting came from instead.
   */
  lemma ProblemsAreReported(own: Option<string>, inherited: Option<string>, p: Problem)
    ensures var used := Chosen(own, inherited);
            p in Problems(own, inherited) <==>
              || (used.Some? && p.on == used.value.0 && p.outcome == EntrySkipped && p.value in Bad(used.value.1))
              || (used.Some? && p == Problem(used.value.1, used.value.0, OnlyFirstUsed) && |Deps(used.value.1)| > 20)
              || (p.outcome == (if used.Some? then Used(used.value.0) else DefaultUsed)
                  && IsRefused(Trimmed(own), Trimmed(inherited), used, p))
  {
    ProblemsSplit(own, inherited, p);
    WithOutcomeMeans(Rejected(own, inherited), OutcomeOf(own, inherited), p);
    var c := Chosen(own, inherited);
    RejectedAre(own, inherited);
    RefusalsAre(Trimmed(own), Trimmed(inherited), c, Rejected(own, inherited), p);
    if c.Some? {
      ReportedMeans(c.value.1, c.value.0, p);
    }
  }

  /** One workload of the namespace depends on another. */
  ghost function DependsIn(n: Namespace): (Target, Target) -> bool {
    (t: Target, o: Target) => exists d :: d in Effective(n, t) && LocalIn(n)(d) == Some(o)
  }

  /** The workload's dependencies are its namespace's. */
  ghost function TakesList(n: Namespace): Target -> bool {
    (t: Target) => n.dependsOn.Some? && Inherits(n, t) && OutcomeOf(OwnValue(n, t), n.dependsOn) == Used(OnNamespace)
  }

  lemma {:induction false} FlatFrom(deps: seq<Ref>, n: Namespace, t: Target)
    ensures forall d :: d in Flat(deps, NotSelf(n, t)) ==> d in deps && !IsSelf(n, t, d)
  {
    if deps != [] {
      FlatFrom(deps[..|deps| - 1], n, t);
    }
  }

  lemma {:induction false} FlatKeeps(deps: seq<Ref>, n: Namespace, t: Target, d: Ref)
    requires d in deps && ((d.ns != "" && d.ns != n.name) || d.kind != t.kind || d.name != t.name)
    ensures d in Flat(deps, NotSelf(n, t))
  {
    var before, last := deps[..|deps| - 1], deps[|deps| - 1];
    assert deps == before + [last];
    if d in before {
      FlatKeeps(before, n, t, d);
    }
  }

  /** Of what is resolved for it a workload depends on everything but itself. */
  lemma DependsOnAllOthers(n: Namespace, t: Target, d: Ref)
    ensures d in Effective(n, t) <==>
              && d in Resolved(OwnValue(n, t), InheritedValue(n, t))
              && ((d.ns != "" && d.ns != n.name) || d.kind != t.kind || d.name != t.name)
  {
    var deps := Resolved(OwnValue(n, t), InheritedValue(n, t));
    FlatFrom(deps, n, t);
    if d in deps && !IsSelf(n, t, d) {
      FlatKeeps(deps, n, t, d);
    }
  }

  /** No workload depends on itself, whichever annotation names it. */
  lemma NeverOnItself(n: Namespace, t: Target)
    ensures !DependsIn(n)(t, t)
  {
    FlatFrom(Resolved(OwnValue(n, t), InheritedValue(n, t)), n, t);
  }

  lemma EffectiveIsListed(n: Namespace, t: Target, o: Target)
    requires DependsIn(n)(t, o)
    ensures if TakesList(n)(t) then Names(ListsOf(n), ListsOf(n).shared, o) else Names(ListsOf(n), ListsOf(n).own(t), o)
  {
    FlatFrom(Resolved(OwnValue(n, t), InheritedValue(n, t)), n, t);
  }

  /**
   * A namespace's depends-on never makes its workloads depend on each other in a circle: those on one, at any length,
   * have the dependencies their own annotations list.
   */
  lemma InheritedListMakesNoCycle(n: Namespace, p: seq<Target>, i: nat)
    requires IsCycle(DependsIn(n), p) && i < |p|
    ensures !TakesList(n)(p[i])
  {
    forall t: Target, o: Target | DependsIn(n)(t, o)
      ensures if TakesList(n)(t) then Names(ListsOf(n), ListsOf(n).shared, o)
              else Names(ListsOf(n), ListsOf(n).own(t), o)
    {
      EffectiveIsListed(n, t, o);
    }
    CyclesAreOwn(ListsOf(n), TakesList(n), DependsIn(n), p, i);
  }

  ghost function LocalRefs(n: Namespace, deps: seq<Ref>): set<Target> {
    set d | d in deps && LocalIn(n)(d).Some? :: LocalIn(n)(d).value
  }

  /** All the workloads the namespace's lists name. */
  ghost function AllNamed(n: Namespace): set<Target> {
    LocalRefs(n, DepsOf(n.dependsOn)) + set t, o | t in n.workloads && o in LocalRefs(n, OwnIn(n)(t)) :: o
  }

  lemma ListedIsNamed(n: Namespace, t: Target)
    requires Listed(ListsOf(n), t)
    ensures t in AllNamed(n)
  {
    var l := ListsOf(n);
    var p :| IsTrail(l, p) && p[|p| - 1] == t;
    if |p| > 1 {
      var via := p[|p| - 2];
      assert Names(l, l.own(via), t);
      assert via !in n.workloads ==> OwnIn(n)(via) == [];
      assert t in LocalRefs(n, OwnIn(n)(via));
    }
  }

  /** Whether the workload takes its namespace's depends-on. */
  method InheritsIn(n: Namespace, t: Target) returns (inherits: bool)
    ensures inherits <==> Inherits(n, t)
  {
    if n.dependsOn.None? {
      return true;
    }
    forall k | Listed(ListsOf(n), k)
      ensures k in AllNamed(n)
    {
      ListedIsNamed(n, k);
    }
    inherits := InheritsDependsOn(ListsOf(n), t, AllNamed(n));
  }

  // Across namespaces

  /** The annotations of a cluster's namespaces, by name. */
  type Cluster = map<string, Namespace>

  ghost predicate Named(c: Cluster) {
    forall ns :: ns in c ==> c[ns].name == ns
  }

  function TargetOf(id: WorkloadId): Target {
    Target(id.kind, id.name)
  }

  /** One workload of the cluster depends on another, in its namespace or any. */
  ghost function DependsAcross(c: Cluster): (WorkloadId, WorkloadId) -> bool {
    (x: WorkloadId, y: WorkloadId) => x.ns in c && y in Ids(x.ns, Effective(c[x.ns], TargetOf(x)))
  }

  /** A workload's dependencies are its namespace's. */
  ghost predicate TakesListAcross(c: Cluster, x: WorkloadId) {
    x.ns in c && TakesList(c[x.ns])(TargetOf(x))
  }

  /** A dependency within a namespace is one of the namespace's graph. */
  lemma DependsWithin(c: Cluster, x: WorkloadId, y: WorkloadId)
    requires Named(c) && DependsAcross(c)(x, y) && x.ns == y.ns
    ensures DependsIn(c[x.ns])(TargetOf(x), TargetOf(y))
  {
    var deps := Effective(c[x.ns], TargetOf(x));
    var i :| 0 <= i < |deps| && Ids(x.ns, deps)[i] == y;
    assert deps[i] in deps && LocalIn(c[x.ns])(deps[i]) == Some(TargetOf(y));
  }

  function Targets(p: seq<WorkloadId>): seq<Target> {
    seq(|p|, j requires 0 <= j < |p| => TargetOf(p[j]))
  }

  lemma StepWithin(c: Cluster, p: seq<WorkloadId>, ns: string, j: nat)
    requires Named(c) && j + 1 < |p| && DependsAcross(c)(p[j], p[j + 1]) && p[j].ns == p[j + 1].ns == ns
    ensures ns in c && DependsIn(c[ns])(Targets(p)[j], Targets(p)[j + 1])
  {
    DependsWithin(c, p[j], p[j + 1]);
  }

  lemma CircleWithin(c: Cluster, p: seq<WorkloadId>, ns: string)
    requires Named(c) && IsCycle(DependsAcross(c), p) && forall j :: 0 <= j < |p| ==> p[j].ns == ns
    ensures ns in c && IsCycle(DependsIn(c[ns]), Targets(p))
  {
    assert DependsAcross(c)(p[0], p[1]);
    forall j, k | 0 <= j && k == j + 1 < |p|
      ensures DependsIn(c[ns])(Targets(p)[j], Targets(p)[k])
    {
      assert DependsAcross(c)(p[j], p[k]);
      StepWithin(c, p, ns, j);
    }
  }

  /** Where one workload of a circle of dependencies takes its namespace's list, the circle leaves that namespace. */
  lemma InheritedCirclesLeave(c: Cluster, p: seq<WorkloadId>, i: nat)
    requires Named(c) && IsCycle(DependsAcross(c), p) && i < |p| && TakesListAcross(c, p[i])
    ensures exists j :: 0 <= j < |p| && p[j].ns != p[i].ns
  {
    if forall j :: 0 <= j < |p| ==> p[j].ns == p[i].ns {
      CircleWithin(c, p, p[i].ns);
      assert Targets(p)[i] == TargetOf(p[i]);
      InheritedListMakesNoCycle(c[p[i].ns], Targets(p), i);
    }
  }

  function Naming(home: WorkloadId, other: WorkloadId): Namespace {
    Namespace(home.ns, Some(Print(other)), map[Target(home.kind, home.name) := None])
  }

  lemma PrintedValue(other: WorkloadId)
    requires Printable(other)
    ensures Trim(Print(other)) == Print(other) && Deps(Print(other)) == [RefTo(other)] && Bad(Print(other)) == []
  {
    PrintReadsBack(other);
    PrintedPiece(other, "");
    SplitWhole(Print(other), ',');
    FlatSingles([Print(other)], DepOf, [RefTo(other)]);
    FlatNone([Print(other)], BadOf);
  }

  lemma NamingResolves(home: WorkloadId, other: WorkloadId)
    requires Printable(other)
    ensures var n, t := Naming(home, other), Target(home.kind, home.name);
            && OwnValue(n, t) == None && DepsOf(n.dependsOn) == [RefTo(other)]
            && Resolved(None, n.dependsOn) == [RefTo(other)] && OutcomeOf(None, n.dependsOn) == Used(OnNamespace)
  {
    PrintedValue(other);
  }

  lemma NothingListed(n: Namespace, t: Target)
    requires forall d :: d in DepsOf(n.dependsOn) ==> LocalIn(n)(d).None?
    ensures Inherits(n, t)
  {
  }

  lemma NamingDepends(home: WorkloadId, other: WorkloadId)
    requires Printable(home) && Printable(other) && home.ns != other.ns
    ensures var n, t := Naming(home, other), Target(home.kind, home.name);
            TakesList(n)(t) && Ids(n.name, Effective(n, t)) == [other]
  {
    var n, t := Naming(home, other), Target(home.kind, home.name);
    NamingResolves(home, other);
    NothingListed(n, t);
    FlatSingles([RefTo(other)], NotSelf(n, t), [RefTo(other)]);
    PrintedPiece(other, n.name);
  }

  lemma NamingDependsAcross(c: Cluster, home: WorkloadId, other: WorkloadId)
    requires Printable(home) && Printable(other) && home.ns != other.ns && home.ns in c
             && c[home.ns] == Naming(home, other)
    ensures DependsAcross(c)(home, other) && TakesListAcross(c, home)
  {
    NamingDepends(home, other);
    assert [other][0] == other;
  }

  /** And it may come back: each of two workloads takes its namespace's list, which names the other. */
  lemma InheritedListsCircleAcross(x: WorkloadId, y: WorkloadId) returns (c: Cluster)
    requires Printable(x) && Printable(y) && x.ns != y.ns
    ensures Named(c) && IsCycle(DependsAcross(c), [x, y, x]) && TakesListAcross(c, x) && TakesListAcross(c, y)
  {
    c := map[x.ns := Naming(x, y), y.ns := Naming(y, x)];
    NamingDependsAcross(c, x, y);
    NamingDependsAcross(c, y, x);
  }
}
