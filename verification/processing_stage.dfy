/** `QueryProcessingStage::Enum`: how far a stream has processed the query. */
module ProcessingStage {

  datatype Stage = FetchColumns | WithMergeableState | Complete

  /** The stage a distributed read asks of its participants: a single
      participant can finish the query, any other number (zero included)
      leaves states the caller must merge. */
  function StageFor(participants: nat): (s: Stage)
    ensures s == Complete <==> participants == 1
    ensures s == WithMergeableState <==> participants != 1
  {
    if participants == 1 then Complete else WithMergeableState
  }
}
