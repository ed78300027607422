/** The selector by priority level (multinode/node_selector_priority_level.go): round robin among the alive nodes of the
    lowest order. */
module PriorityLevels {
  import opened Wrappers
  import opened Selectors

  const TWO_32 := 0x1_0000_0000

  type uint32 = x: int | 0 <= x < TWO_32

  datatype Ranked = Ranked(node: nat, priority: int32)

  // ----- tiers -----

  function OfPriority(list: seq<Ranked>, p: int): seq<Ranked> {
    if list == [] then []
    else OfPriority(list[..|list| - 1], p) + if list[|list| - 1].priority == p then [list[|list| - 1]] else []
  }

  /** Stable insertion of the element that came last: after the higher and equal priorities. */
  function Insert(sorted: seq<Ranked>, x: Ranked): seq<Ranked> {
    if sorted == [] || sorted[|sorted| - 1].priority >= x.priority then sorted + [x]
    else Insert(sorted[..|sorted| - 1], x) + [sorted[|sorted| - 1]]
  }

  /** sort.SliceStable, by falling priority number. */
  function StableSort(list: seq<Ranked>): seq<Ranked> {
    if list == [] then [] else Insert(StableSort(list[..|list| - 1]), list[|list| - 1])
  }

  predicate Falling(list: seq<Ranked>) {
    forall i, j :: 0 <= i < j < |list| ==> list[j].priority <= list[i].priority
  }

  predicate AllAtLeast(list: seq<Ranked>, p: int) {
    forall i :: 0 <= i < |list| ==> p <= list[i].priority
  }

  lemma {:induction false} InsertKeepsBound(sorted: seq<Ranked>, x: Ranked, p: int)
    requires AllAtLeast(sorted, p) && p <= x.priority
    ensures AllAtLeast(Insert(sorted, x), p)
  {
    if sorted != [] && sorted[|sorted| - 1].priority < x.priority {
      InsertKeepsBound(sorted[..|sorted| - 1], x, p);
    }
  }

  lemma {:induction false} InsertFalls(sorted: seq<Ranked>, x: Ranked)
    requires Falling(sorted)
    ensures Falling(Insert(sorted, x))
  {
    if sorted != [] && sorted[|sorted| - 1].priority < x.priority {
      InsertFalls(sorted[..|sorted| - 1], x);
      InsertKeepsBound(sorted[..|sorted| - 1], x, sorted[|sorted| - 1].priority);
    }
  }

  lemma {:induction false} InsertKeepsTier(sorted: seq<Ranked>, x: Ranked, p: int)
    ensures OfPriority(Insert(sorted, x), p) == OfPriority(sorted, p) + if x.priority == p then [x] else []
  {
    var r := Insert(sorted, x);
    if sorted == [] || sorted[|sorted| - 1].priority >= x.priority {
      assert r[..|r| - 1] == sorted;
    } else {
      InsertKeepsTier(sorted[..|sorted| - 1], x, p);
      assert r[..|r| - 1] == Insert(sorted[..|sorted| - 1], x);
    }
  }

  /** Sorting puts the lowest number last, and leaves the nodes of each priority as they were. */
  lemma {:induction false} SortKeeps(list: seq<Ranked>, p: int)
    ensures Falling(StableSort(list))
    ensures OfPriority(StableSort(list), p) == OfPriority(list, p)
  {
    if list != [] {
      var front, last := list[..|list| - 1], list[|list| - 1];
      SortKeeps(front, p);
      InsertFalls(StableSort(front), last);
      InsertKeepsTier(StableSort(front), last, p);
    }
  }

  lemma {:induction false} PresentIfListed(list: seq<Ranked>, i: nat)
    requires i < |list|
    ensures OfPriority(list, list[i].priority) != []
  {
    if i < |list| - 1 { PresentIfListed(list[..|list| - 1], i); }
  }

  lemma {:induction false} ListedIfPresent(list: seq<Ranked>, p: int) returns (i: nat)
    requires OfPriority(list, p) != []
    ensures i < |list| && list[i].priority == p
  {
    i := |list| - 1;
    if list[i].priority != p { i := ListedIfPresent(list[..i], p); }
  }

  /** The last of the sorted list has the lowest number. */
  lemma LastIsLowest(list: seq<Ranked>)
    requires list != []
    ensures StableSort(list) != []
    ensures AllAtLeast(list, StableSort(list)[|StableSort(list)| - 1].priority)
  {
    var sorted := StableSort(list);
    forall i | 0 <= i < |list|
      ensures sorted != [] && sorted[|sorted| - 1].priority <= list[i].priority
    {
      SortKeeps(list, list[i].priority);
      PresentIfListed(list, i);
      var k := ListedIfPresent(sorted, list[i].priority);
    }
    assert 0 < |list|;
  }

  /** removeLowerTiers: the nodes of the lowest number, in their order. */
  method RemoveLowerTiers(list: seq<Ranked>) returns (tier: seq<Ranked>, lowest: int32)
    requires list != []
    ensures tier == OfPriority(list, lowest) && tier != [] && AllAtLeast(list, lowest)
  {
    var sorted := StableSort(list);
    LastIsLowest(list);
    lowest := sorted[|sorted| - 1].priority;
    SortKeeps(list, lowest);
    PresentIfListed(sorted, |sorted| - 1);
    tier := [];
    for i := 0 to |sorted|
      invariant tier == OfPriority(sorted[..i], lowest)
    {
      assert sorted[..i + 1][..i] == sorted[..i];
      if sorted[i].priority == lowest { tier := tier + [sorted[i]]; }
    }
    assert sorted[..|sorted|] == sorted;
  }

  // ----- the alive tier of a list of nodes -----

  /** The alive nodes, in order. */
  function AliveOf(nodes: seq<Node>): seq<Ranked> {
    if nodes == [] then []
    else
      var last := nodes[|nodes| - 1];
      AliveOf(nodes[..|nodes| - 1]) + if last.alive then [Ranked(|nodes| - 1, last.order)] else []
  }

  /** An alive node with the lowest order among alive nodes. */
  predicate IsTop(nodes: seq<Node>, i: nat) {
    i < |nodes| && nodes[i].alive && forall j :: 0 <= j < |nodes| && nodes[j].alive ==> nodes[i].order <= nodes[j].order
  }

  lemma {:induction false} AliveIs(nodes: seq<Node>)
    ensures forall r :: r in AliveOf(nodes) <==>
              r.node < |nodes| && nodes[r.node].alive && nodes[r.node].order == r.priority
    ensures forall i, j :: 0 <= i < j < |AliveOf(nodes)| ==> AliveOf(nodes)[i].node < AliveOf(nodes)[j].node
  {
    if nodes != [] {
      var front := nodes[..|nodes| - 1];
      AliveIs(front);
      assert forall k :: 0 <= k < |AliveOf(front)| ==> AliveOf(front)[k] in AliveOf(front);
    }
  }

  lemma {:induction false} TierIs(list: seq<Ranked>, p: int)
    requires forall i, j :: 0 <= i < j < |list| ==> list[i].node < list[j].node
    ensures forall r :: r in OfPriority(list, p) <==> r in list && r.priority == p
    ensures forall i, j :: 0 <= i < j < |OfPriority(list, p)| ==>
              OfPriority(list, p)[i].node < OfPriority(list, p)[j].node
  {
    if list != [] {
      var front, last := list[..|list| - 1], list[|list| - 1];
      TierIs(front, p);
      assert list == front + [last];
      forall k | 0 <= k < |OfPriority(front, p)|
        ensures OfPriority(front, p)[k].node < last.node
      {
        assert OfPriority(front, p)[k] in front;
      }
    }
  }

  /** The tier holds each alive node of the lowest order once, by position. */
  ghost predicate IsTier(nodes: seq<Node>, tier: seq<Ranked>) {
    && (forall i :: 0 <= i < |tier| ==> IsTop(nodes, tier[i].node) && tier[i].priority == nodes[tier[i].node].order)
    && (forall i, j :: 0 <= i < j < |tier| ==> tier[i].node < tier[j].node)
    && (forall n: nat :: IsTop(nodes, n) ==> Ranked(n, nodes[n].order) in tier)
    && (tier != [] ==> tier == OfPriority(AliveOf(nodes), tier[0].priority))
  }

  /** There is one tier for each state of the nodes. */
  lemma TierIsUnique(nodes: seq<Node>, a: seq<Ranked>, b: seq<Ranked>)
    requires IsTier(nodes, a) && IsTier(nodes, b)
    ensures a == b
  {
    if a != [] {
      assert Ranked(a[0].node, nodes[a[0].node].order) in b;
      TopsShareOrder(nodes, a[0].node, b[0].node);
    } else {
      assert forall n: nat :: !IsTop(nodes, n);
    }
  }

  lemma TopsShareOrder(nodes: seq<Node>, i: nat, j: nat)
    requires IsTop(nodes, i) && IsTop(nodes, j)
    ensures nodes[i].order == nodes[j].order
  {
  }

  method AliveNodes(nodes: seq<Node>) returns (alive: seq<Ranked>)
    ensures alive == AliveOf(nodes)
  {
    alive := [];
    for k := 0 to |nodes|
      invariant alive == AliveOf(nodes[..k])
    {
      assert nodes[..k + 1][..k] == nodes[..k] && nodes[..k + 1][k] == nodes[k];
      if nodes[k].alive { alive := alive + [Ranked(k, nodes[k].order)]; }
    }
    assert nodes[..|nodes|] == nodes;
  }

  lemma NoneAlive(nodes: seq<Node>)
    requires AliveOf(nodes) == []
    ensures forall i :: 0 <= i < |nodes| ==> !nodes[i].alive
  {
    AliveIs(nodes);
    forall i | 0 <= i < |nodes|
      ensures !nodes[i].alive
    {
      assert Ranked(i, nodes[i].order) !in AliveOf(nodes);
    }
  }

  method GetHighestPriorityAliveTier(nodes: seq<Node>) returns (tier: seq<Ranked>)
    ensures IsTier(nodes, tier)
    ensures tier == [] <==> forall i :: 0 <= i < |nodes| ==> !nodes[i].alive
  {
    var alive := AliveNodes(nodes);
    if |alive| == 0 {
      NoneAlive(nodes);
      return [];
    }
    var lowest;
    tier, lowest := RemoveLowerTiers(alive);
    AliveIs(nodes);
    TierIs(alive, lowest);
    TierFits(nodes, alive, tier, lowest);
  }

  lemma TierFits(nodes: seq<Node>, alive: seq<Ranked>, tier: seq<Ranked>, lowest: int32)
    requires forall r :: r in alive <==> r.node < |nodes| && nodes[r.node].alive && nodes[r.node].order == r.priority
    requires AllAtLeast(alive, lowest)
    requires tier != [] && forall r :: r in tier <==> r in alive && r.priority == lowest
    requires forall i, j :: 0 <= i < j < |tier| ==> tier[i].node < tier[j].node
    requires tier == OfPriority(AliveOf(nodes), lowest)
    ensures IsTier(nodes, tier) && nodes[tier[0].node].alive
  {
    assert tier[0] in tier;
    forall j | 0 <= j < |nodes| && nodes[j].alive
      ensures lowest <= nodes[j].order
    {
      assert Ranked(j, nodes[j].order) in alive;
    }
    forall i | 0 <= i < |tier|
      ensures IsTop(nodes, tier[i].node) && tier[i].priority == nodes[tier[i].node].order
    {
      assert tier[i] in tier;
    }
    forall n: nat | IsTop(nodes, n)
      ensures Ranked(n, nodes[n].order) in tier
    {
      assert nodes[n].order <= nodes[tier[0].node].order;
      assert Ranked(n, nodes[n].order) in alive;
    }
  }

  // ----- round robin -----

  method NrOfPriorityTiers(nodes: seq<Node>) returns (tiers: int)
    ensures forall i :: 0 <= i < |nodes| ==> nodes[i].order < tiers
    ensures tiers >= 1 && (tiers == 1 || exists i :: 0 <= i < |nodes| && nodes[i].order == tiers - 1)
  {
    var highest: int32 := 0;
    for k := 0 to |nodes|
      invariant highest >= 0 && forall i :: 0 <= i < k ==> nodes[i].order <= highest
      invariant highest == 0 || exists i :: 0 <= i < k && nodes[i].order == highest
    {
      if highest < nodes[k].order { highest := nodes[k].order; }
    }
    tiers := highest + 1;
  }

  /** The same nodes, each with its order, whatever their states now. */
  predicate SameNodes(a: seq<Node>, b: seq<Node>) {
    |a| == |b| && forall i :: 0 <= i < |a| ==> a[i].order == b[i].order
  }

  /** count % m, without division. */
  ghost function Remainder(count: nat, m: nat): (r: nat)
    requires m > 0
    ensures r < m
  {
    if count < m then count else Remainder(count - m, m)
  }

  lemma {:induction false} RemainderIs(count: nat, m: nat)
    requires m > 0
    ensures Remainder(count, m) == count % m
    decreases count
  {
    if count < m {
      ModIs(count, 0, m, count);
    } else {
      RemainderIs(count - m, m);
      var q := (count - m) / m;
      assert (q + 1) * m == q * m + m;
      ModIs(count, q + 1, m, (count - m) % m);
    }
  }

  /** One more, in uint32. */
  function Next(count: uint32): uint32 {
    if count + 1 == TWO_32 then 0 else count + 1
  }

  method IndexOf(count: uint32, m: nat) returns (idx: nat)
    requires m > 0
    ensures idx == Remainder(count, m)
  {
    idx := count % m;
    RemainderIs(count, m);
  }

  lemma ProductGrows(d: int, m: int)
    requires m > 0
    ensures d >= 1 ==> d * m >= m
    ensures d <= -1 ==> d * m <= -m
  {
    if d >= 1 { assert d * m == (d - 1) * m + m && (d - 1) * m >= 0; }
    if d <= -1 { assert d * m == (d + 1) * m - m && (d + 1) * m <= 0; }
  }

  lemma ModIs(x: int, q: int, m: int, r: int)
    requires 0 <= r < m && x == q * m + r
    ensures x % m == r
  {
    var d := q - x / m;
    assert d * m == q * m - (x / m) * m;
    ProductGrows(d, m);
  }

  class PriorityLevelSelector {
    const configured: seq<Node>
    const roundRobinCount: array<uint32>

    /** Every order is the index of a counter. */
    ghost predicate Valid() {
      forall i :: 0 <= i < |configured| ==> 0 <= configured[i].order < roundRobinCount.Length
    }

    constructor (nodes: seq<Node>)
      requires forall i :: 0 <= i < |nodes| ==> 0 <= nodes[i].order < MAX_INT32
      ensures Valid() && configured == nodes && fresh(roundRobinCount)
      ensures forall p :: 0 <= p < roundRobinCount.Length ==> roundRobinCount[p] == 0
    {
      configured := nodes;
      var tiers := NrOfPriorityTiers(nodes);
      roundRobinCount := new uint32[tiers](_ => 0);
    }

    /** roundRobinCount[p].Add(1) - 1, atomically. */
    method NextCount(p: nat) returns (count: uint32)
      requires p < roundRobinCount.Length
      modifies roundRobinCount
      ensures count == old(roundRobinCount[p])
      ensures roundRobinCount[..] == old(roundRobinCount[..])[p := Next(count)]
    {
      count := roundRobinCount[p];
      roundRobinCount[p] := Next(count);
    }

    /** The counter index is always in range; the node is the next of the alive tier, and only its counter moves on. */
    method Select(nodes: seq<Node>) returns (best: Option<nat>, ghost tier: seq<Ranked>)
      requires Valid() && SameNodes(nodes, configured)
      modifies roundRobinCount
      ensures IsTier(nodes, tier)
      ensures best == None <==> forall i :: 0 <= i < |nodes| ==> !nodes[i].alive
      ensures best == None ==> tier == [] && roundRobinCount[..] == old(roundRobinCount[..])
      ensures best.Some? ==>
                && IsTop(nodes, best.value) && |tier| > 0
                && var p := nodes[best.value].order;
                && 0 <= p < roundRobinCount.Length
                && best.value == tier[Remainder(old(roundRobinCount[p]), |tier|)].node
                && roundRobinCount[..] == old(roundRobinCount[..])[p := Next(old(roundRobinCount[p]))]
    {
      var list := GetHighestPriorityAliveTier(nodes);
      tier := list;
      if |list| == 0 { return None, tier; }
      var p := list[|list| - 1].priority;
      assert IsTop(nodes, list[|list| - 1].node);
      var count := NextCount(p);
      var idx := IndexOf(count, |list|);
      assert IsTop(nodes, list[idx].node);
      best := Some(list[idx].node);
    }

    /** A selection from a tier that is known already. */
    method SelectNext(nodes: seq<Node>, ghost tier: seq<Ranked>) returns (pick: nat)
      requires Valid() && SameNodes(nodes, configured) && IsTier(nodes, tier) && tier != []
      requires 0 <= tier[0].priority < roundRobinCount.Length
      modifies roundRobinCount
      ensures pick == tier[Remainder(old(roundRobinCount[tier[0].priority]), |tier|)].node
      ensures roundRobinCount[tier[0].priority] == Next(old(roundRobinCount[tier[0].priority]))
    {
      assert IsTop(nodes, tier[0].node);
      var best;
      ghost var again;
      best, again := Select(nodes);
      TierIsUnique(nodes, again, tier);
      TopsShareOrder(nodes, best.value, tier[0].node);
      pick := best.value;
    }

    /** As many selections as the tier has nodes, with the states of all nodes unchanged: if the counter does not
        wrap, every alive node of the lowest order is chosen, and none twice. */
    method SelectRound(nodes: seq<Node>) returns (picks: seq<nat>, ghost tier: seq<Ranked>)
      requires Valid() && SameNodes(nodes, configured)
      modifies roundRobinCount
      ensures IsTier(nodes, tier) && |picks| == |tier|
      ensures tier != [] ==> 0 <= tier[0].priority < roundRobinCount.Length
      ensures tier != [] && old(roundRobinCount[tier[0].priority]) + |tier| <= TWO_32 ==> EachTopOnce(nodes, picks)
    {
      var list := GetHighestPriorityAliveTier(nodes);
      tier, picks := list, [];
      if |list| == 0 { return; }
      assert IsTop(nodes, list[0].node);
      ghost var count := roundRobinCount[list[0].priority];
      ghost var noWrap := count + |list| <= TWO_32;
      while |picks| < |list|
        invariant |picks| <= |list|
        invariant noWrap && count + |picks| < TWO_32 ==> roundRobinCount[list[0].priority] == count + |picks|
        invariant noWrap ==> forall k :: 0 <= k < |picks| ==> picks[k] == list[Remainder(count + k, |list|)].node
      {
        var pick := SelectNext(nodes, list);
        picks := picks + [pick];
      }
      if noWrap { RoundIsFair(nodes, list, count, picks); }
    }
  }

  // ----- fairness -----

  /** Any m consecutive numbers reach each remainder below m. */
  lemma {:induction false} EachRemainderReached(count: nat, m: nat, i: nat) returns (k: nat)
    requires 0 <= i < m
    ensures k < m && Remainder(count + k, m) == i
    decreases count
  {
    if count >= m {
      k := EachRemainderReached(count - m, m, i);
      assert count + k >= m && count + k - m == count - m + k;
    } else if i >= count {
      k := i - count;
    } else {
      k := i + m - count;
      assert Remainder(i, m) == i && count + k - m == i;
    }
  }

  lemma {:induction false} DifferentRemainders(count: nat, m: nat, j: nat, k: nat)
    requires j < k < m
    ensures Remainder(count + j, m) != Remainder(count + k, m)
    decreases count
  {
    if count >= m {
      DifferentRemainders(count - m, m, j, k);
      assert count + j - m == count - m + j && count + k - m == count - m + k;
    } else {
      assert count + k < m || Remainder(count + k, m) == count + k - m;
      assert count + j < m || Remainder(count + j, m) == count + j - m;
    }
  }

  lemma NotTwice(tier: seq<Ranked>, i: nat, j: nat)
    requires forall i, j :: 0 <= i < j < |tier| ==> tier[i].node < tier[j].node
    requires i < |tier| && j < |tier| && i != j
    ensures tier[i].node != tier[j].node
  {
  }

  /** The picks are the alive nodes of the lowest order, each once. */
  ghost predicate EachTopOnce(nodes: seq<Node>, picks: seq<nat>) {
    && (forall n: nat :: n in picks <==> IsTop(nodes, n))
    && (forall j, k :: 0 <= j < k < |picks| ==> picks[j] != picks[k])
  }

  /** As many consecutive counts as the tier has nodes pick each of them once. */
  lemma RoundIsFair(nodes: seq<Node>, tier: seq<Ranked>, count: nat, picks: seq<nat>)
    requires IsTier(nodes, tier) && |tier| > 0 && |picks| == |tier|
    requires forall k :: 0 <= k < |picks| ==> picks[k] == tier[Remainder(count + k, |tier|)].node
    ensures EachTopOnce(nodes, picks)
  {
    forall k | 0 <= k < |picks|
      ensures IsTop(nodes, picks[k])
    {
      assert IsTop(nodes, tier[Remainder(count + k, |tier|)].node);
    }
    forall n: nat | IsTop(nodes, n)
      ensures n in picks
    {
      var i :| 0 <= i < |tier| && tier[i] == Ranked(n, nodes[n].order);
      var k := EachRemainderReached(count, |tier|, i);
      assert picks[k] == n;
    }
    forall j, k | 0 <= j < k < |picks|
      ensures picks[j] != picks[k]
    {
      DifferentRemainders(count, |tier|, j, k);
      NotTwice(tier, Remainder(count + j, |tier|), Remainder(count + k, |tier|));
    }
  }
}
