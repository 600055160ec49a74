/** Replica records, as the master and the replicated metadata keep them with every chunk. */
module Replicas {
  /** The first value is also the role of a chunk record that nobody gave a role. */
  datatype Role = Primary | Secondary

  datatype Status = Healthy | Syncing | Offline

  datatype Replica = Replica(node: string, role: Role, version: int, status: Status, updated: int)

  /** Replicas on these nodes as they are allocated: healthy, of version 0, the first one primary. */
  function NewReplicas(nodes: seq<string>, now: int): (r: seq<Replica>)
    ensures |r| == |nodes|
  {
    seq(|nodes|, i requires 0 <= i < |nodes| =>
      Replica(nodes[i], if i == 0 then Primary else Secondary, 0, Healthy, now))
  }
}
