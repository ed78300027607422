/** Views on the chain (multinode/types.go) and how a new head moves the local one (multinode/node_lifecycle.go). */
module ChainInfos {
  import opened Wrappers

  datatype ChainInfo = ChainInfo(blockNumber: int, finalizedBlockNumber: int, totalDifficulty: Option<int>)

  const NOTHING_SEEN := ChainInfo(0, 0, None)

  datatype Head = Head(valid: bool, number: int)

  function Max(a: int, b: int): int { if a >= b then a else b }

  /** MaxTotalDifficulty: the maximum, with nil below every number. */
  function MaxTotalDifficulty(a: Option<int>, b: Option<int>): (r: Option<int>)
    ensures r == a || r == b
    ensures AtMost(a, r) && AtMost(b, r)
  {
    if a == None then (if b == None then None else b)
    else if b == None || a.value >= b.value then a
    else b
  }

  predicate AtMost(a: Option<int>, b: Option<int>) {
    a == None || (b.Some? && a.value <= b.value)
  }

  /** onNewHead: the new local view, or None for a head that is invalid or not newer. */
  function OnNewHead(finalityTag: bool, finalityDepth: nat, info: ChainInfo, head: Head): Option<ChainInfo> {
    if !head.valid || head.number <= info.blockNumber then None
    else
      var moved := info.(blockNumber := head.number);
      var finalized := Max(head.number - finalityDepth, 0);
      if !finalityTag && finalized > info.finalizedBlockNumber then Some(moved.(finalizedBlockNumber := finalized))
          else Some(moved)
  }

  /** onNewFinalizedHead, likewise. */
  function OnNewFinalizedHead(info: ChainInfo, head: Head): Option<ChainInfo> {
    if !head.valid || head.number <= info.finalizedBlockNumber then None
        else Some(info.(finalizedBlockNumber := head.number))
  }
}
