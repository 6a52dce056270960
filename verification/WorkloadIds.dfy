/** Names of workloads, and of the dependencies they list. */
module WorkloadIds {
  datatype Kind = Deployment | StatefulSet

  /** A Deployment or StatefulSet, across namespaces. */
  datatype WorkloadId = WorkloadId(ns: string, kind: Kind, name: string)

  /** A dependency as a spec or the learner names it: an empty namespace is the dependent's own. */
  datatype Ref = Ref(ns: string, kind: Kind, name: string, waitForReady: bool)

  function DependencyId(dependent: string, ref: Ref): WorkloadId {
    WorkloadId(if ref.ns == "" then dependent else ref.ns, ref.kind, ref.name)
  }

  function Ids(ns: string, refs: seq<Ref>): (ids: seq<WorkloadId>)
    ensures |ids| == |refs|
    ensures forall i :: 0 <= i < |refs| ==> ids[i] == DependencyId(ns, refs[i])
  {
    seq(|refs|, i requires 0 <= i < |refs| => DependencyId(ns, refs[i]))
  }
}
