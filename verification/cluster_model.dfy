/** The executors behind a distributed table: one connection pool per shard,
    in configuration order, and the number of executors inside this process. */
module ClusterModel {

  /** A connection-pool handle; opaque. */
  type PoolId = nat

  datatype Cluster = Cluster(pools: seq<PoolId>, localNodesNum: nat) {
    /** `pools.size() + getLocalNodesNum()`. */
    function ParticipantCount(): nat
    {
      |pools| + localNodesNum
    }
  }
}
