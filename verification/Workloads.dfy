/** What identifies a workload, and what is recorded of what it ran. */
module Workloads {

  /** UIDs stand in the order their strings compare in. */
  datatype Uid = Uid(n: nat)

  datatype NodePool = NodePool(name: string, pods: int)

  /**
   * What a workload ran: requests a replica, in thousandths of a core and in bytes, the bytes its claims provision, and
   * how many of its pods each node pool ran.
   */
  datatype Snapshot = Snapshot(replicas: nat, cpuMillis: nat, memoryBytes: nat, storageBytes: nat,
                               nodePools: seq<NodePool>)

  const NO_RESOURCES := Snapshot(0, 0, 0, 0, [])

  const BYTES_PER_GIB := 1024.0 * 1024.0 * 1024.0
}
