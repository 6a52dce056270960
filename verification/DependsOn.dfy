/** Depends-on annotations: reading their values, printing workload ids, and which annotation's value is used. */
module DependsOn {
  import opened Lists
  import opened Text
  import opened WorkloadIds
  import opened Wrappers

  const MAX_DEPENDS_ON := 20

  function KindName(k: Kind): string {
    if k.Deployment? then "deployment" else "statefulset"
  }

  function ParseKind(s: string): Option<Kind> {
    if Lower(s) == "deployment" then Some(Deployment)
    else if Lower(s) == "statefulset" then Some(StatefulSet)
    else None
  }

  function ParseDependency(entry: string): (r: Option<Ref>)
    ensures r.Some? ==> r.value.name != ""
  {
    var parts := Split(entry, '/');
    if |parts| != 2 && |parts| != 3 then None
    else
      var kind, name := ParseKind(parts[|parts| - 2]), parts[|parts| - 1];
      if kind.None? || name == "" || (|parts| == 3 && parts[0] == "") then None
      else Some(Ref(if |parts| == 3 then parts[0] else "", kind.value, name, false))
  }

  /** The dependency a piece of a value is read as; none if it's empty or can't be read. */
  function DepOf(piece: string): seq<Ref> {
    var dep := ParseDependency(Trim(piece));
    if Trim(piece) != "" && dep.Some? then [dep.value] else []
  }

  /** The entry of a piece that can't be read. */
  function BadOf(piece: string): seq<string> {
    if Trim(piece) != "" && ParseDependency(Trim(piece)).None? then [Trim(piece)] else []
  }

  function Deps(value: string): seq<Ref> {
    Flat(Split(value, ','), DepOf)
  }

  function Bad(value: string): seq<string> {
    Flat(Split(value, ','), BadOf)
  }

  /** Reads a depends-on value, with the entries it can't read apart. */
  method ParseDependencies(value: string) returns (deps: seq<Ref>, bad: seq<string>)
    ensures deps == Deps(value) && bad == Bad(value)
  {
    var pieces := Split(value, ',');
    deps, bad := [], [];
    for i := 0 to |pieces|
      invariant deps == Flat(pieces[..i], DepOf) && bad == Flat(pieces[..i], BadOf)
    {
      FlatJoins(pieces, DepOf, i);
      FlatJoins(pieces, BadOf, i);
      var entry := Trim(pieces[i]);
      if entry == "" {
        continue;
      }
      var dep := ParseDependency(entry);
      if dep.Some? {
        deps := deps + [dep.value];
      } else {
        bad := bad + [entry];
      }
    }
    assert pieces[..|pieces|] == pieces;
  }

  // Printing and reading back

  function Print(id: WorkloadId): string {
    id.ns + "/" + KindName(id.kind) + "/" + id.name
  }

  /** The dependency a printed id is read back as. */
  function RefTo(id: WorkloadId): Ref {
    Ref(id.ns, id.kind, id.name, false)
  }

  function PrintAll(ids: seq<WorkloadId>): seq<string> {
    seq(|ids|, i requires 0 <= i < |ids| => Print(ids[i]))
  }

  /** An id whose parts a list can hold. */
  predicate Printable(id: WorkloadId) {
    && id.ns != "" && id.name != "" && '/' !in id.ns && '/' !in id.name && ',' !in id.ns && ',' !in id.name
    && !IsSpace(id.ns[0]) && !IsSpace(id.name[|id.name| - 1])
  }

  lemma KindReadsBack(k: Kind)
    ensures ParseKind(KindName(k)) == Some(k) && '/' !in KindName(k) && ',' !in KindName(k)
  {
  }

  lemma PrintSplits(id: WorkloadId)
    requires Printable(id)
    ensures Split(Print(id), '/') == [id.ns, KindName(id.kind), id.name]
  {
    KindReadsBack(id.kind);
    SplitAfter(id.ns, '/', KindName(id.kind) + "/" + id.name);
    SplitAfter(KindName(id.kind), '/', id.name);
    SplitWhole(id.name, '/');
    assert Print(id) == id.ns + ['/'] + (KindName(id.kind) + "/" + id.name);
    assert KindName(id.kind) + "/" + id.name == KindName(id.kind) + ['/'] + id.name;
  }

  lemma PrintReadsBack(id: WorkloadId)
    requires Printable(id)
    ensures ParseDependency(Print(id)) == Some(RefTo(id))
    ensures Trim(Print(id)) == Print(id) && Print(id) != "" && ',' !in Print(id)
  {
    PrintSplits(id);
    KindReadsBack(id.kind);
    var s := Print(id);
    assert s[0] == id.ns[0] && s[|s| - 1] == id.name[|id.name| - 1];
  }

  /** Without a namespace an entry names a workload beside the dependent's, its kind in letters of any case. */
  lemma ShortEntryReads(kind: string, name: string, k: Kind)
    requires Lower(kind) == KindName(k) && '/' !in kind && '/' !in name && name != ""
    ensures ParseDependency(kind + ['/'] + name) == Some(Ref("", k, name, false))
  {
    SplitAfter(kind, '/', name);
    SplitWhole(name, '/');
    KindReadsBack(k);
  }

  /** With one it's of that namespace; and nothing else is an entry: of other kinds, or with a part left empty. */
  lemma EntryReads(ns: string, kind: string, name: string)
    requires '/' !in ns && '/' !in kind && '/' !in name
    ensures var r := ParseDependency(ns + ['/'] + (kind + ['/'] + name));
            && (r.Some? <==> ns != "" && name != "" && Lower(kind) in {"deployment", "statefulset"})
            && (r.Some? ==> r.value.ns == ns && r.value.name == name && KindName(r.value.kind) == Lower(kind))
  {
    SplitAfter(ns, '/', kind + ['/'] + name);
    SplitAfter(kind, '/', name);
    SplitWhole(name, '/');
  }

  lemma PrintedPiece(id: WorkloadId, ns: string)
    requires Printable(id)
    ensures DepOf(Print(id)) == [RefTo(id)] && BadOf(Print(id)) == []
    ensures DependencyId(ns, RefTo(id)) == id && ',' !in Print(id)
  {
    PrintReadsBack(id);
  }

  /** Blanks around an entry are nothing to it, and alone no entry at all. */
  lemma BlanksAreSkipped(before: string, id: WorkloadId, after: string)
    requires Printable(id) && IsBlank(before) && IsBlank(after)
    ensures DepOf(before + Print(id) + after) == [RefTo(id)] && BadOf(before + Print(id) + after) == []
    ensures DepOf(before) == [] && BadOf(before) == []
  {
    PrintReadsBack(id);
    assert Print(id)[0] == id.ns[0] && Print(id)[|Print(id)| - 1] == id.name[|id.name| - 1];
    TrimStrips(before, Print(id), after);
    TrimStrips(before, [], []);
    assert before + [] + [] == before;
  }

  lemma PrintedLists(ids: seq<WorkloadId>, ns: string, printed: seq<string>, refs: seq<Ref>)
    requires forall id :: id in ids ==> Printable(id)
    requires |printed| == |refs| == |ids|
    requires forall i :: 0 <= i < |ids| ==> printed[i] == Print(ids[i]) && refs[i] == RefTo(ids[i])
    ensures Flat(printed, DepOf) == refs && Flat(printed, BadOf) == []
    ensures Ids(ns, refs) == ids && forall i :: 0 <= i < |ids| ==> ',' !in printed[i]
  {
    forall i | 0 <= i < |ids|
      ensures DepOf(printed[i]) == [refs[i]] && BadOf(printed[i]) == [] && ',' !in printed[i]
      ensures DependencyId(ns, refs[i]) == ids[i]
    {
      PrintedPiece(ids[i], ns);
    }
    FlatSingles(printed, DepOf, refs);
    FlatNone(printed, BadOf);
  }

  /** Ids printed, joined by commas and read back, by a dependent in any namespace, are the same ids in order. */
  lemma RoundTrip(ids: seq<WorkloadId>, ns: string)
    requires forall id :: id in ids ==> Printable(id)
    ensures Ids(ns, Deps(Join(PrintAll(ids), ','))) == ids
    ensures Bad(Join(PrintAll(ids), ',')) == []
  {
    var printed, refs := PrintAll(ids), seq(|ids|, i requires 0 <= i < |ids| => RefTo(ids[i]));
    PrintedLists(ids, ns, printed, refs);
    if ids == [] {
      assert [""][..0] == [];
    } else {
      SplitJoin(printed, ',');
    }
  }
}
