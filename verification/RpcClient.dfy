/** RPCClientBase (multinode/rpc_client_base.go): the fields its methods update in place, against the history of
    what happened to it.  Each method is one critical section; what may happen between two of them is the subject of
    RpcPool. */
module RpcClient {
  import opened Wrappers
  import opened ChainInfos
  import opened RpcPool

  /** An observed head, a cancelled life cycle, a reset of latestChainInfo. */
  datatype Event = Seen(call: Call) | Cancelled | Forgotten

  function Cycles(h: seq<Event>): nat {
    if h == [] then 0 else Cycles(h[..|h| - 1]) + if h[|h| - 1].Cancelled? then 1 else 0
  }

  /** Event i is a head of the given kind from a request of the life cycle that was current then. */
  predicate IsCurrent(h: seq<Event>, finalized: bool, i: nat) {
    i < |h| && h[i].Seen? && h[i].call.finalized == finalized && h[i].call.cycle == Cycles(h[..i])
  }

  /** ... and neither a later one nor a reset came after it. */
  ghost predicate IsLatest(h: seq<Event>, finalized: bool, i: nat) {
    IsCurrent(h, finalized, i) && forall j: nat :: i < j < |h| ==> h[j] != Forgotten && !IsCurrent(h, finalized, j)
  }

  /** Event i is a head of the given kind that was returned to a user. */
  predicate IsUsers(h: seq<Event>, finalized: bool, i: nat) {
    i < |h| && h[i].Seen? && h[i].call.finalized == finalized && !h[i].call.health
  }

  /** The maximum of zero and all numbers of users' heads. */
  ghost predicate IsHighest(h: seq<Event>, finalized: bool, number: int) {
    && number >= 0
    && (forall i: nat :: IsUsers(h, finalized, i) ==> h[i].call.number <= number)
    && (number == 0 || exists i: nat :: IsUsers(h, finalized, i) && h[i].call.number == number)
  }

  ghost predicate IsHighestDifficulty(h: seq<Event>, difficulty: Option<int>) {
    && (forall i: nat :: IsUsers(h, false, i) ==> AtMost(h[i].call.difficulty, difficulty))
    && (difficulty == None || exists i: nat :: IsUsers(h, false, i) && h[i].call.difficulty == difficulty)
  }

  lemma OneMore(h: seq<Event>, e: Event)
    ensures Cycles(h + [e]) == Cycles(h) + if e.Cancelled? then 1 else 0
    ensures forall finalized, i: nat :: i < |h| ==> (IsCurrent(h + [e], finalized, i) <==> IsCurrent(h, finalized, i))
    ensures forall finalized, i: nat :: i < |h| ==> (IsUsers(h + [e], finalized, i) <==> IsUsers(h, finalized, i))
    ensures forall finalized :: IsCurrent(h + [e], finalized, |h|) <==>
              e.Seen? && e.call.finalized == finalized && e.call.cycle == Cycles(h)
  {
    var more := h + [e];
    assert more[..|h|] == h && more[|h|] == e;
    forall finalized, i: nat | i < |h|
      ensures IsCurrent(more, finalized, i) <==> IsCurrent(h, finalized, i)
    {
      assert more[..i] == h[..i];
    }
  }

  /** Whether and where the latest head of a kind moves. */
  lemma LatestAfter(h: seq<Event>, e: Event, finalized: bool, i: nat)
    requires i <= |h|
    ensures IsLatest(h + [e], finalized, i) <==>
              if IsCurrent(h + [e], finalized, |h|) then i == |h|
              else i < |h| && e != Forgotten && IsLatest(h, finalized, i)
  {
    OneMore(h, e);
    var more := h + [e];
    assert more[|h|] == e && forall j :: 0 <= j < |h| ==> more[j] == h[j];
    if IsLatest(more, finalized, i) && i < |h| {
      forall j: nat | i < j < |h|
        ensures h[j] != Forgotten && !IsCurrent(h, finalized, j)
      {
        assert more[j] != Forgotten && !IsCurrent(more, finalized, j);
      }
    }
  }

  lemma HighestAfter(h: seq<Event>, e: Event, finalized: bool, number: int)
    requires IsHighest(h, finalized, number)
    ensures IsHighest(h + [e], finalized, if IsUsers(h + [e], finalized, |h|) then Max(number, e.call.number)
              else number)
  {
    OneMore(h, e);
    var more := h + [e];
    assert more[|h|] == e && forall j :: 0 <= j < |h| ==> more[j] == h[j];
    if number != 0 {
      var i: nat :| IsUsers(h, finalized, i) && h[i].call.number == number;
      assert IsUsers(more, finalized, i) && more[i].call.number == number;
    }
  }

  lemma DifficultyAfter(h: seq<Event>, e: Event, d: Option<int>)
    requires IsHighestDifficulty(h, d)
    ensures IsHighestDifficulty(h + [e], if IsUsers(h + [e], false, |h|) then MaxTotalDifficulty(d, e.call.difficulty)
              else d)
  {
    OneMore(h, e);
    var more := h + [e];
    assert more[|h|] == e && forall j :: 0 <= j < |h| ==> more[j] == h[j];
    if d != None {
      var i: nat :| IsUsers(h, false, i) && h[i].call.difficulty == d;
      assert IsUsers(more, false, i) && more[i].call.difficulty == d;
    }
  }

  /** Nothing that users saw is taken back. */
  predicate NoLess(before: ChainInfo, after: ChainInfo) {
    && before.blockNumber <= after.blockNumber && before.finalizedBlockNumber <= after.finalizedBlockNumber
    && AtMost(before.totalDifficulty, after.totalDifficulty)
  }

  /** The users' view is the maximum of all heads ever returned to a user. */
  ghost predicate UsersFit(h: seq<Event>, info: ChainInfo) {
    && IsHighest(h, false, info.blockNumber) && IsHighest(h, true, info.finalizedBlockNumber)
    && IsHighestDifficulty(h, info.totalDifficulty)
  }

  /** The event that the latest head of a kind comes from, if there is one. */
  ghost predicate IsSource(h: seq<Event>, finalized: bool, source: Option<nat>) {
    if source.Some? then IsLatest(h, finalized, source.value) else forall i: nat :: !IsLatest(h, finalized, i)
  }

  /** The latest view holds, of each kind, the last head that a request of the then current life cycle brought since
      the last reset, and zero if there is none. */
  ghost predicate LatestFits(h: seq<Event>, info: ChainInfo, block: Option<nat>, finalized: Option<nat>) {
    && IsSource(h, false, block) && IsSource(h, true, finalized)
    && info.blockNumber == (if block.Some? then h[block.value].call.number else 0)
    && info.totalDifficulty == (if block.Some? then h[block.value].call.difficulty else None)
    && info.finalizedBlockNumber == (if finalized.Some? then h[finalized.value].call.number else 0)
  }

  /** What the machine's observing step makes of the users' view. */
  function UsersView(info: ChainInfo, call: Call): ChainInfo {
    Observed(FRESH_CLIENT.(highest := info), call).highest
  }

  lemma UsersAfter(h: seq<Event>, e: Event, info: ChainInfo)
    requires UsersFit(h, info)
    ensures UsersFit(h + [e], if e.Seen? then UsersView(info, e.call) else info)
  {
    assert (h + [e])[|h|] == e;
    HighestAfter(h, e, false, info.blockNumber);
    HighestAfter(h, e, true, info.finalizedBlockNumber);
    DifficultyAfter(h, e, info.totalDifficulty);
  }

  lemma SourceAfter(h: seq<Event>, e: Event, finalized: bool, source: Option<nat>)
    requires IsSource(h, finalized, source)
    ensures IsSource(h + [e], finalized,
                     if IsCurrent(h + [e], finalized, |h|) then Some(|h|) else if e == Forgotten then None else source)
  {
    forall i: nat | i <= |h|
      ensures IsLatest(h + [e], finalized, i) <==>
                if IsCurrent(h + [e], finalized, |h|) then i == |h|
                else i < |h| && e != Forgotten && IsLatest(h, finalized, i)
    {
      LatestAfter(h, e, finalized, i);
    }
  }

  /** A head of the current life cycle replaces the latest of its kind; any other event but a reset leaves the view. */
  lemma SeenAfter(h: seq<Event>, call: Call, info: ChainInfo, block: Option<nat>, finalized: Option<nat>)
    requires LatestFits(h, info, block, finalized)
    ensures var h' := h + [Seen(call)];
            if call.cycle != Cycles(h) then LatestFits(h', info, block, finalized)
            else if call.finalized then LatestFits(h', info.(finalizedBlockNumber := call.number), block, Some(|h|))
            else LatestFits(h', info.(blockNumber := call.number, totalDifficulty := call.difficulty), Some(|h|),
                finalized)
  {
    OneMore(h, Seen(call));
    SourceAfter(h, Seen(call), false, block);
    SourceAfter(h, Seen(call), true, finalized);
    assert (h + [Seen(call)])[|h|] == Seen(call);
  }

  lemma CancelledAfter(h: seq<Event>, info: ChainInfo, block: Option<nat>, finalized: Option<nat>)
    requires LatestFits(h, info, block, finalized)
    ensures LatestFits(h + [Cancelled], info, block, finalized)
  {
    OneMore(h, Cancelled);
    SourceAfter(h, Cancelled, false, block);
    SourceAfter(h, Cancelled, true, finalized);
  }

  lemma ForgottenAfter(h: seq<Event>, info: ChainInfo, block: Option<nat>, finalized: Option<nat>)
    requires LatestFits(h, info, block, finalized)
    ensures LatestFits(h + [Forgotten], NOTHING_SEEN, None, None)
  {
    OneMore(h, Forgotten);
    SourceAfter(h, Forgotten, false, block);
    SourceAfter(h, Forgotten, true, finalized);
  }

  class RPCClientBase {
    var lifeCycle: nat                        // how many times lifeCycleCh was replaced
    var latestChainInfo: ChainInfo
    var highestUserObservations: ChainInfo
    ghost var history: seq<Event>
    ghost var blockBy: Option<nat>            // the events latestChainInfo comes from
    ghost var finalizedBy: Option<nat>

    ghost predicate Valid()
      reads this
    {
      && lifeCycle == Cycles(history) && UsersFit(history, highestUserObservations)
      && LatestFits(history, latestChainInfo, blockBy, finalizedBy)
    }

    constructor ()
      ensures Valid() && history == []
    {
      lifeCycle, latestChainInfo, highestUserObservations := 0, NOTHING_SEEN, NOTHING_SEEN;
      history, blockBy, finalizedBy := [], None, None;
    }

    /** OnNewHead for a valid head.  A health check leaves the users' view alone, a stale request the latest one; a
        user's number is covered from now on; a current request's head is the latest. */
    method OnNewHead(call: Call)
      requires Valid() && !call.finalized && call.cycle <= lifeCycle
      modifies this
      ensures Valid() && history == old(history) + [Seen(call)] && lifeCycle == old(lifeCycle)
      ensures NoLess(old(highestUserObservations), highestUserObservations)
      ensures call.health ==> highestUserObservations == old(highestUserObservations)
      ensures !call.health ==> call.number <= highestUserObservations.blockNumber
      ensures !call.health ==> AtMost(call.difficulty, highestUserObservations.totalDifficulty)
      ensures call.cycle < lifeCycle ==> latestChainInfo == old(latestChainInfo)
      ensures call.cycle == lifeCycle ==>
                && latestChainInfo.blockNumber == call.number && latestChainInfo.totalDifficulty == call.difficulty
                && latestChainInfo.finalizedBlockNumber == old(latestChainInfo.finalizedBlockNumber)
    {
      UsersAfter(history, Seen(call), highestUserObservations);
      SeenAfter(history, call, latestChainInfo, blockBy, finalizedBy);
      OneMore(history, Seen(call));
      if !call.health {
        highestUserObservations := highestUserObservations.(
          blockNumber := Max(highestUserObservations.blockNumber, call.number),
          totalDifficulty := MaxTotalDifficulty(highestUserObservations.totalDifficulty, call.difficulty));
      }
      if call.cycle == lifeCycle {
        latestChainInfo := latestChainInfo.(blockNumber := call.number, totalDifficulty := call.difficulty);
        blockBy := Some(|history|);
      }
      history := history + [Seen(call)];
    }

    /** OnNewFinalizedHead, likewise. */
    method OnNewFinalizedHead(call: Call)
      requires Valid() && call.finalized && call.cycle <= lifeCycle
      modifies this
      ensures Valid() && history == old(history) + [Seen(call)] && lifeCycle == old(lifeCycle)
      ensures NoLess(old(highestUserObservations), highestUserObservations)
      ensures call.health ==> highestUserObservations == old(highestUserObservations)
      ensures !call.health ==> call.number <= highestUserObservations.finalizedBlockNumber
      ensures call.cycle < lifeCycle ==> latestChainInfo == old(latestChainInfo)
      ensures call.cycle == lifeCycle ==>
                && latestChainInfo.finalizedBlockNumber == call.number
                && latestChainInfo.blockNumber == old(latestChainInfo.blockNumber)
                && latestChainInfo.totalDifficulty == old(latestChainInfo.totalDifficulty)
    {
      UsersAfter(history, Seen(call), highestUserObservations);
      SeenAfter(history, call, latestChainInfo, blockBy, finalizedBy);
      OneMore(history, Seen(call));
      if !call.health {
        highestUserObservations := highestUserObservations.(
          finalizedBlockNumber := Max(highestUserObservations.finalizedBlockNumber, call.number));
      }
      if call.cycle == lifeCycle {
        latestChainInfo := latestChainInfo.(finalizedBlockNumber := call.number);
        finalizedBy := Some(|history|);
      }
      history := history + [Seen(call)];
    }

    /** CancelLifeCycle: requests made so far are stale from now on; both views stay as they are. */
    method CancelLifeCycle()
      requires Valid()
      modifies this
      ensures Valid() && history == old(history) + [Cancelled] && lifeCycle == old(lifeCycle) + 1
      ensures latestChainInfo == old(latestChainInfo) && highestUserObservations == old(highestUserObservations)
    {
      UsersAfter(history, Cancelled, highestUserObservations);
      CancelledAfter(history, latestChainInfo, blockBy, finalizedBy);
      OneMore(history, Cancelled);
      lifeCycle := lifeCycle + 1;
      history := history + [Cancelled];
    }

    /** resetLatestChainInfo: nothing is visible in the latest view, whatever came before. */
    method ResetLatestChainInfo()
      requires Valid()
      modifies this
      ensures Valid() && history == old(history) + [Forgotten] && lifeCycle == old(lifeCycle)
      ensures latestChainInfo == NOTHING_SEEN && highestUserObservations == old(highestUserObservations)
    {
      UsersAfter(history, Forgotten, highestUserObservations);
      ForgottenAfter(history, latestChainInfo, blockBy, finalizedBy);
      OneMore(history, Forgotten);
      latestChainInfo := NOTHING_SEEN;
      blockBy, finalizedBy := None, None;
      history := history + [Forgotten];
    }

    /** Close: every request made before it is stale, nothing is visible any more, and users' observations are kept. */
    method Close()
      requires Valid()
      modifies this
      ensures Valid() && lifeCycle > old(lifeCycle) && IsQuiet(history)
      ensures latestChainInfo == NOTHING_SEEN && highestUserObservations == old(highestUserObservations)
    {
      CancelLifeCycle();
      ResetLatestChainInfo();
      assert history[|history| - 1] == Forgotten;
    }
  }

  /** No Close is under way: every cancelled life cycle was followed by a reset. */
  ghost predicate IsQuiet(h: seq<Event>) {
    forall i: nat :: i < |h| && h[i] == Cancelled ==> exists j: nat :: i < j < |h| && h[j] == Forgotten
  }

  lemma {:induction false} CyclesOnlyGrow(h: seq<Event>, i: nat)
    requires i <= |h| && forall j: nat :: i <= j < |h| ==> h[j] != Cancelled
    ensures Cycles(h) == Cycles(h[..i])
  {
    if i == |h| {
      assert h[..i] == h;
    } else {
      CyclesOnlyGrow(h[..|h| - 1], i);
      assert h[..|h| - 1][..i] == h[..i];
    }
  }

  /** With no Close under way, whatever is in the latest view came from a request of the current life cycle: the
      check alone, made when the head was written, would not say so, but the reset that follows every cancellation
      does. */
  lemma QuietIsCurrent(h: seq<Event>, finalized: bool, i: nat)
    requires IsQuiet(h) && IsLatest(h, finalized, i)
    ensures h[i].call.cycle == Cycles(h)
  {
    assert forall j: nat :: i <= j < |h| ==> h[j] != Cancelled;
    CyclesOnlyGrow(h, i);
  }
}
