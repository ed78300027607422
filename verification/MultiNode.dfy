/** The pool (multinode/multi_node.go): what its nodes have seen, taken together. */
module MultiNode {
  import opened Wrappers
  import opened ChainInfos

  /** Above zero and above every view in the list, and each part is zero or comes from the list. */
  ghost predicate IsHighestOf(ch: ChainInfo, infos: seq<ChainInfo>) {
    && ch.blockNumber >= 0 && ch.finalizedBlockNumber >= 0 && AtMost(Some(0), ch.totalDifficulty)
    && (forall i :: 0 <= i < |infos| ==>
          infos[i].blockNumber <= ch.blockNumber && infos[i].finalizedBlockNumber <= ch.finalizedBlockNumber
                                         && AtMost(infos[i].totalDifficulty, ch.totalDifficulty))
    && (ch.blockNumber == 0 || exists i :: 0 <= i < |infos| && infos[i].blockNumber == ch.blockNumber)
    && (|| ch.finalizedBlockNumber == 0
        || exists i :: 0 <= i < |infos| && infos[i].finalizedBlockNumber == ch.finalizedBlockNumber)
    && (ch.totalDifficulty == Some(0) || exists i :: 0 <= i < |infos| && infos[i].totalDifficulty == ch.totalDifficulty)
  }

  const ZERO := ChainInfo(0, 0, Some(0))

  function Joined(ch: ChainInfo, info: ChainInfo): ChainInfo {
    ChainInfo(Max(ch.blockNumber, info.blockNumber), Max(ch.finalizedBlockNumber, info.finalizedBlockNumber),
              MaxTotalDifficulty(ch.totalDifficulty, info.totalDifficulty))
  }

  lemma JoinedIsHighest(ch: ChainInfo, infos: seq<ChainInfo>, info: ChainInfo)
    requires IsHighestOf(ch, infos)
    ensures IsHighestOf(Joined(ch, info), infos + [info])
  {
    var more, top := infos + [info], Joined(ch, info);
    assert more[|infos|] == info && forall i :: 0 <= i < |infos| ==> more[i] == infos[i];
    if top.blockNumber != 0 && top.blockNumber == ch.blockNumber {
      var i :| 0 <= i < |infos| && infos[i].blockNumber == ch.blockNumber;
      assert more[i].blockNumber == top.blockNumber;
    }
    if top.finalizedBlockNumber != 0 && top.finalizedBlockNumber == ch.finalizedBlockNumber {
      var i :| 0 <= i < |infos| && infos[i].finalizedBlockNumber == ch.finalizedBlockNumber;
      assert more[i].finalizedBlockNumber == top.finalizedBlockNumber;
    }
    if top.totalDifficulty != Some(0) && top.totalDifficulty == ch.totalDifficulty {
      var i :| 0 <= i < |infos| && infos[i].totalDifficulty == ch.totalDifficulty;
      assert more[i].totalDifficulty == top.totalDifficulty;
    }
  }

  /** The highest view any user of the pool ever observed. */
  method HighestUserObservations(infos: seq<ChainInfo>) returns (ch: ChainInfo)
    ensures IsHighestOf(ch, infos)
  {
    ch := ZERO;
    for k := 0 to |infos|
      invariant IsHighestOf(ch, infos[..k])
    {
      JoinedIsHighest(ch, infos[..k], infos[k]);
      assert infos[..k + 1] == infos[..k] + [infos[k]];
      ch := Joined(ch, infos[k]);
    }
    assert infos[..|infos|] == infos;
  }

  /** What StateAndLatest answers for a node. */
  datatype PoolNode = PoolNode(name: string, alive: bool, latest: ChainInfo)

  function LatestOfAlive(nodes: seq<PoolNode>): seq<ChainInfo> {
    if nodes == [] then []
    else LatestOfAlive(nodes[..|nodes| - 1]) + if nodes[|nodes| - 1].alive then [nodes[|nodes| - 1].latest] else []
  }

  ghost function OthersAlive(nodes: seq<PoolNode>, caller: string, k: nat): set<int>
    requires k <= |nodes|
  {
    set i | 0 <= i < k && nodes[i].alive && nodes[i].name != caller
  }

  lemma OneMoreNode(nodes: seq<PoolNode>, caller: string, k: nat)
    requires k < |nodes|
    ensures var more := if nodes[k].alive && nodes[k].name != caller then 1 else 0;
            |OthersAlive(nodes, caller, k + 1)| == |OthersAlive(nodes, caller, k)| + more
    ensures var before := LatestOfAlive(nodes[..k]);
            LatestOfAlive(nodes[..k + 1]) == if nodes[k].alive then before + [nodes[k].latest] else before
  {
    var more := if nodes[k].alive && nodes[k].name != caller then {k} else {};
    assert OthersAlive(nodes, caller, k + 1) == OthersAlive(nodes, caller, k) + more;
    assert nodes[..k + 1][..k] == nodes[..k];
  }

  /** The number of alive nodes other than the caller, and the highest of what alive nodes have last seen. */
  method LatestChainInfo(nodes: seq<PoolNode>, caller: string) returns (live: nat, ch: ChainInfo)
    ensures live == |OthersAlive(nodes, caller, |nodes|)|
    ensures IsHighestOf(ch, LatestOfAlive(nodes))
  {
    live, ch := 0, ZERO;
    for k := 0 to |nodes|
      invariant live == |OthersAlive(nodes, caller, k)|
      invariant IsHighestOf(ch, LatestOfAlive(nodes[..k]))
    {
      OneMoreNode(nodes, caller, k);
      if nodes[k].alive {
        JoinedIsHighest(ch, LatestOfAlive(nodes[..k]), nodes[k].latest);
        if nodes[k].name != caller { live := live + 1; }
        ch := Joined(ch, nodes[k].latest);
      }
    }
    assert nodes[..|nodes|] == nodes;
  }
}
