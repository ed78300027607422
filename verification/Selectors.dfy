/** The node selectors (multinode/node_selector_*.go).  A node is chosen by its position in the list of nodes. */
module Selectors {
  import opened Wrappers

  const MAX_INT32 := 0x7FFF_FFFF
  const MIN_INT64 := -0x8000_0000_0000_0000

  type int32 = x: int | -MAX_INT32 - 1 <= x <= MAX_INT32
  type int64 = x: int | MIN_INT64 <= x < 0x8000_0000_0000_0000

  /** What the selectors ask a node: whether its state is Alive, what it has last seen, and its configured order. */
  datatype Node = Node(alive: bool, blockNumber: int64, totalDifficulty: Option<int>, order: int32)

  /** Positions of nodes, in their order in the list. */
  predicate Positions(nodes: seq<Node>, list: seq<nat>) {
    && (forall i :: 0 <= i < |list| ==> list[i] < |nodes|)
    && (forall i, j :: 0 <= i < j < |list| ==> list[i] < list[j])
  }

  /** i comes before j: by a lower order, or by position. */
  predicate Precedes(nodes: seq<Node>, i: nat, j: nat)
    requires i < |nodes| && j < |nodes|
  {
    nodes[i].order < nodes[j].order || (nodes[i].order == nodes[j].order && i <= j)
  }

  /** firstOrHighestPriority: nothing is found exactly when no candidate has an order below MaxInt32. */
  method FirstOrHighestPriority(nodes: seq<Node>, list: seq<nat>) returns (best: Option<nat>)
    requires Positions(nodes, list)
    ensures best == None <==> forall j :: j in list ==> nodes[j].order == MAX_INT32
    ensures best.Some? ==> best.value in list && forall j :: j in list ==> Precedes(nodes, best.value, j)
  {
    var hp: int32 := MAX_INT32;
    best := None;
    for k := 0 to |list|
      invariant best == None ==> hp == MAX_INT32
      invariant best.Some? ==> best.value in list[..k] && best.value < |nodes|
      invariant best.Some? ==> nodes[best.value].order == hp < MAX_INT32
      invariant forall j :: 0 <= j < k ==> hp <= nodes[list[j]].order
      invariant best.Some? ==> forall j :: 0 <= j < k ==> Precedes(nodes, best.value, list[j])
    {
      if nodes[list[k]].order < hp {
        hp := nodes[list[k]].order;
        best := Some(list[k]);
      }
    }
  }

  lemma OneMore(nodes: seq<Node>, list: seq<nat>, k: nat)
    requires Positions(nodes, list) && k < |nodes| && forall j :: j in list ==> j < k
    ensures Positions(nodes, list + [k]) && forall j :: j in list + [k] <==> j in list || j == k
  {
    assert forall i :: 0 <= i < |list| ==> list[i] in list;
  }

  // ----- highest head -----

  /** An alive node with the highest head of all alive nodes. */
  predicate HasHighestHead(nodes: seq<Node>, i: nat) {
    && i < |nodes| && nodes[i].alive
    && forall j :: 0 <= j < |nodes| && nodes[j].alive ==> nodes[j].blockNumber <= nodes[i].blockNumber
  }

  method HighestHeads(nodes: seq<Node>) returns (list: seq<nat>)
    ensures Positions(nodes, list)
    ensures forall j: nat :: j in list <==> HasHighestHead(nodes, j)
    ensures list == [] ==> forall j :: 0 <= j < |nodes| ==> !nodes[j].alive
  {
    var highest: int64 := MIN_INT64;
    list := [];
    for k := 0 to |nodes|
      invariant Positions(nodes, list)
      invariant list == [] ==> highest == MIN_INT64
      invariant forall j :: j in list <==> 0 <= j < k && nodes[j].alive && nodes[j].blockNumber == highest
      invariant forall j :: 0 <= j < k && nodes[j].alive ==> nodes[j].blockNumber <= highest
    {
      if nodes[k].alive && nodes[k].blockNumber >= highest {
        if highest < nodes[k].blockNumber {
          highest := nodes[k].blockNumber;
          list := [];
        }
        OneMore(nodes, list, k);
        list := list + [k];
      }
    }
    if list != [] { assert list[0] in list; }
  }

  /** The first, by order and then by position, of the alive nodes with the highest head; none exactly if none of
      those has an order below MaxInt32. */
  method SelectHighestHead(nodes: seq<Node>) returns (best: Option<nat>)
    ensures best.Some? ==> HasHighestHead(nodes, best.value)
    ensures best.Some? ==> forall j: nat :: HasHighestHead(nodes, j) ==> Precedes(nodes, best.value, j)
    ensures best == None <==> forall j: nat :: HasHighestHead(nodes, j) ==> nodes[j].order == MAX_INT32
    ensures best == None && (forall i :: 0 <= i < |nodes| ==> nodes[i].order < MAX_INT32) ==>
              forall i :: 0 <= i < |nodes| ==> !nodes[i].alive
  {
    var list := HighestHeads(nodes);
    best := FirstOrHighestPriority(nodes, list);
    if list != [] { assert list[0] in list; }
  }

  // ----- total difficulty -----

  /** Among alive nodes: the highest difficulty if any is known, else any. */
  predicate HasHighestDifficulty(nodes: seq<Node>, i: nat) {
    && i < |nodes| && nodes[i].alive
    && forall j :: 0 <= j < |nodes| && nodes[j].alive && nodes[j].totalDifficulty.Some? ==>
         nodes[i].totalDifficulty.Some? && nodes[j].totalDifficulty.value <= nodes[i].totalDifficulty.value
  }

  method HighestDifficulties(nodes: seq<Node>) returns (list: seq<nat>, alive: seq<nat>)
    ensures Positions(nodes, list) && Positions(nodes, alive)
    ensures forall j: nat :: j in alive <==> j < |nodes| && nodes[j].alive
    ensures forall j: nat :: j in list <==> HasHighestDifficulty(nodes, j) && nodes[j].totalDifficulty.Some?
    ensures list == [] ==> forall j :: 0 <= j < |nodes| && nodes[j].alive ==> nodes[j].totalDifficulty == None
  {
    var highest: Option<int> := None;
    list, alive := [], [];
    for k := 0 to |nodes|
      invariant Positions(nodes, list) && Positions(nodes, alive)
      invariant forall j :: j in alive <==> 0 <= j < k && nodes[j].alive
      invariant highest == None <==> list == []
      invariant forall j :: j in list <==>
                  0 <= j < k && nodes[j].alive && nodes[j].totalDifficulty == highest && highest.Some?
      invariant forall j :: 0 <= j < k && nodes[j].alive && nodes[j].totalDifficulty.Some? ==>
                  highest.Some? && nodes[j].totalDifficulty.value <= highest.value
    {
      if nodes[k].alive {
        var td := nodes[k].totalDifficulty;
        OneMore(nodes, alive, k);
        alive := alive + [k];
        if td.Some? && (highest == None || td.value >= highest.value) {
          if highest == None || td.value > highest.value {
            highest := td;
            list := [];
          }
          OneMore(nodes, list, k);
          list := list + [k];
        }
      }
    }
    if list != [] { assert list[0] in list; }
  }

  /** The first, by order and then by position, of the alive nodes with the highest known difficulty, or of all
      alive nodes if none is known; none exactly if none of those has an order below MaxInt32. */
  method SelectTotalDifficulty(nodes: seq<Node>) returns (best: Option<nat>)
    ensures best.Some? ==> HasHighestDifficulty(nodes, best.value)
    ensures best.Some? ==> forall j: nat :: HasHighestDifficulty(nodes, j) ==> Precedes(nodes, best.value, j)
    ensures best == None <==> forall j: nat :: HasHighestDifficulty(nodes, j) ==> nodes[j].order == MAX_INT32
    ensures best == None && (forall i :: 0 <= i < |nodes| ==> nodes[i].order < MAX_INT32) ==>
              forall i :: 0 <= i < |nodes| ==> !nodes[i].alive
  {
    var list, alive := HighestDifficulties(nodes);
    if |list| == 0 {
      best := FirstOrHighestPriority(nodes, alive);
      assert forall j :: 0 <= j < |nodes| && nodes[j].alive ==> j in alive;
    } else {
      assert list[0] in list;
      best := FirstOrHighestPriority(nodes, list);
    }
  }
}
