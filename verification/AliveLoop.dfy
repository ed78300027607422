/** The poll counters of aliveLoop (multinode/node_lifecycle.go): a counter that decays instead of resetting, and a
    counter of unavailable finalized state that resets.  What the loop decides from them is stated over the whole
    history of answers, with no counter in sight. */
module AlivePolling {
  import NodeLifecycle
  import Wrappers

  const MAX_UINT32 := 0xFFFF_FFFF

  type uint32 = x: int | 0 <= x <= MAX_UINT32

  /** Answer of CheckFinalizedStateAvailability: nil, ErrFinalizedStateUnavailable, any other error. */
  datatype StateCheck = Available | Unavailable | CheckFailed

  /** What the select of the loop receives.  The `others` are the live nodes LatestChainInfo counts, at each of the
      places where the loop asks; `behind` is the answer of isOutOfSyncWithPool. */
  datatype Event =
    | Stop
    | Poll(pingFailed: bool, others: nat, behind: bool, othersAtSync: nat, check: StateCheck, othersAtCheck: nat)
    | NewHead
    | SubscriptionLost
    | NoNewHeads(others: nat)
    | NoNewFinalizedHeads(others: nat)

  datatype Config = Config(pollFailureThreshold: uint32, stateCheckThreshold: uint32, hasPool: bool, loadBalanced: bool)

  datatype SyncIssue = NotInSyncWithPool | NoNewHead | NoNewFinalizedHead

  datatype Outcome = Waits | Stops | Unreachable | OutOfSync(issue: SyncIssue) | FinalizedStateNotAvailable

  // ----- the decaying counter -----

  /** Failures minus successes. */
  function Net(polls: seq<bool>): int {
    if polls == [] then 0 else Net(polls[..|polls| - 1]) + if polls[|polls| - 1] then 1 else -1
  }

  /** One poll on the counter: saturating up, decaying down. */
  function Counted(c: uint32, failed: bool): uint32 {
    if failed then (if c < MAX_UINT32 then c + 1 else c) else if c > 0 then c - 1 else c
  }

  function Counter(polls: seq<bool>): uint32 {
    if polls == [] then 0 else Counted(Counter(polls[..|polls| - 1]), polls[|polls| - 1])
  }

  /** The polls from k on have at least t more failures than successes, and no later part of them has lost more than the
      counter can hold above t. */
  ghost predicate Window(polls: seq<bool>, t: int, k: nat) {
    && k <= |polls|
    && Net(polls[k..]) >= t
    && forall j :: k <= j <= |polls| ==> Net(polls[j..]) >= t - MAX_UINT32
  }

  lemma NetOfMore(polls: seq<bool>, failed: bool)
    ensures forall k :: 0 <= k <= |polls| ==> Net((polls + [failed])[k..]) == Net(polls[k..]) + if failed then 1 else -1
    ensures Net((polls + [failed])[|polls| + 1..]) == 0
  {
    forall k | 0 <= k <= |polls|
      ensures Net((polls + [failed])[k..]) == Net(polls[k..]) + if failed then 1 else -1
    {
      var more := (polls + [failed])[k..];
      assert more[..|more| - 1] == polls[k..] && more[|more| - 1] == failed;
    }
  }

  lemma WindowOfMore(polls: seq<bool>, failed: bool, t: int, k: nat)
    requires k <= |polls| && t <= MAX_UINT32
    ensures Window(polls + [failed], t, k) <==> Window(polls, if failed then t - 1 else t + 1, k)
  {
    NetOfMore(polls, failed);
    var more := polls + [failed];
    var u := if failed then t - 1 else t + 1;
    if Window(polls, u, k) {
      forall j | k <= j <= |more|
        ensures Net(more[j..]) >= t - MAX_UINT32
      {
        if j <= |polls| { assert Net(polls[j..]) >= u - MAX_UINT32; }
      }
    }
    if Window(more, t, k) {
      forall j | k <= j <= |polls|
        ensures Net(polls[j..]) >= u - MAX_UINT32
      {
        assert Net(more[j..]) >= t - MAX_UINT32;
      }
    }
  }

  /** The saturating, decaying counter reaches t exactly when some recent window of polls does. */
  lemma {:induction false} CounterReachesIffWindow(polls: seq<bool>, t: int)
    requires 1 <= t <= MAX_UINT32
    ensures Counter(polls) >= t <==> exists k: nat :: Window(polls, t, k)
  {
    if polls == [] {
      assert forall k: nat :: k <= |polls| ==> polls[k..] == [];
    } else {
      var before, failed := polls[..|polls| - 1], polls[|polls| - 1];
      assert polls == before + [failed];
      var u := if failed then t - 1 else t + 1;
      forall k: nat | k <= |before|
        ensures Window(polls, t, k) <==> Window(before, u, k)
      {
        WindowOfMore(before, failed, t, k);
      }
      assert !Window(polls, t, |polls|) by { assert polls[|polls|..] == []; }
      if u == 0 {
        assert before[|before|..] == [];
        assert Window(before, u, |before|);
        assert Window(polls, t, |before|);
      } else if u > MAX_UINT32 {
        assert before[|before|..] == [] && Net(before[|before|..]) < u - MAX_UINT32;
        assert forall k: nat :: !Window(before, u, k);
      } else {
        CounterReachesIffWindow(before, u);
      }
    }
  }

  /** No stretch of polls ever nets more than the counter holds. */
  ghost predicate BelowCap(polls: seq<bool>) {
    forall k, n :: 0 <= k <= n <= |polls| ==> Net(polls[k..n]) <= MAX_UINT32
  }

  /** Below the cap the counter is the maximum, over all suffixes of the history, of failures minus successes. */
  lemma {:induction false} CounterIsMaxSuffix(polls: seq<bool>)
    requires BelowCap(polls)
    ensures forall k :: 0 <= k <= |polls| ==> Net(polls[k..]) <= Counter(polls)
    ensures exists k :: 0 <= k <= |polls| && Net(polls[k..]) == Counter(polls)
  {
    forall k | 0 <= k <= |polls|
      ensures Net(polls[k..]) <= Counter(polls)
    {
      SuffixIsCounted(polls, k);
    }
    if Counter(polls) == 0 {
      assert polls[|polls|..] == [];
      assert Net(polls[|polls|..]) == Counter(polls);
    } else {
      CounterReachesIffWindow(polls, Counter(polls));
      var k: nat :| Window(polls, Counter(polls), k);
      assert Net(polls[k..]) == Counter(polls);
    }
  }

  lemma {:induction false} SuffixIsCounted(polls: seq<bool>, k: nat)
    requires BelowCap(polls) && k <= |polls|
    ensures Net(polls[k..]) <= Counter(polls)
  {
    var t := Net(polls[k..]);
    assert polls[k..|polls|] == polls[k..];
    assert t <= MAX_UINT32;
    if t >= 1 {
      SuffixIsWindow(polls, t, k);
      CounterReachesIffWindow(polls, t);
    }
  }

  lemma SuffixIsWindow(polls: seq<bool>, t: int, k: nat)
    requires BelowCap(polls) && k <= |polls| && Net(polls[k..]) >= t
    ensures Window(polls, t, k)
  {
    forall j | k <= j <= |polls|
      ensures Net(polls[j..]) >= t - MAX_UINT32
    {
      NetSplits(polls[k..j], polls[j..]);
      assert polls[k..] == polls[k..j] + polls[j..];
    }
  }

  lemma {:induction false} NetSplits(a: seq<bool>, b: seq<bool>)
    ensures Net(a + b) == Net(a) + Net(b)
  {
    if b == [] {
      assert a + b == a;
    } else {
      NetSplits(a, b[..|b| - 1]);
      assert (a + b)[..|a + b| - 1] == a + b[..|b| - 1];
    }
  }

  lemma {:induction false} NetIsBounded(polls: seq<bool>)
    ensures -|polls| <= Net(polls) <= |polls|
  {
    if polls != [] { NetIsBounded(polls[..|polls| - 1]); }
  }

  /** A history is below the cap for as long as it is shorter than the cap. */
  lemma ShortIsBelowCap(polls: seq<bool>)
    requires |polls| <= MAX_UINT32
    ensures BelowCap(polls)
  {
    forall k, n | 0 <= k <= n <= |polls|
      ensures Net(polls[k..n]) <= MAX_UINT32
    {
      NetIsBounded(polls[k..n]);
    }
  }

  /** So for every history shorter than the cap. */
  lemma {:induction false} CounterOfShortHistory(polls: seq<bool>)
    requires |polls| <= MAX_UINT32
    ensures forall k :: 0 <= k <= |polls| ==> Net(polls[k..]) <= Counter(polls)
    ensures exists k :: 0 <= k <= |polls| && Net(polls[k..]) == Counter(polls)
  {
    ShortIsBelowCap(polls);
    CounterIsMaxSuffix(polls);
  }

  // ----- the resetting counter -----

  /** One answer on the counter of unavailable finalized state; an RPC error leaves it as it is. */
  function StateCounted(c: uint32, check: StateCheck): uint32 {
    match check
    case Available => 0
    case Unavailable => if c < MAX_UINT32 then c + 1 else c
    case CheckFailed => c
  }

  function StateCounter(checks: seq<StateCheck>): uint32 {
    if checks == [] then 0 else StateCounted(StateCounter(checks[..|checks| - 1]), checks[|checks| - 1])
  }

  function Unavailables(checks: seq<StateCheck>): nat {
    if checks == [] then 0
    else Unavailables(checks[..|checks| - 1]) + if checks[|checks| - 1] == Unavailable then 1 else 0
  }

  /** From k on the state was never seen available, and at least t times unavailable. */
  ghost predicate Outage(checks: seq<StateCheck>, t: nat, k: nat) {
    k <= |checks| && Available !in checks[k..] && Unavailables(checks[k..]) >= t
  }

  lemma {:induction false} StateCounterReachesIffOutage(checks: seq<StateCheck>, t: nat)
    requires t <= MAX_UINT32
    ensures StateCounter(checks) >= t <==> exists k: nat :: Outage(checks, t, k)
  {
    assert checks[|checks|..] == [];
    if t == 0 {
      assert Outage(checks, t, |checks|);
    } else if checks == [] {
      assert forall k: nat :: k <= |checks| ==> checks[k..] == [];
    } else {
      var before, last := checks[..|checks| - 1], checks[|checks| - 1];
      var u := if last == Unavailable then t - 1 else t;
      StateCounterReachesIffOutage(before, u);
      forall k: nat | k <= |before|
        ensures Outage(checks, t, k) <==> last != Available && Outage(before, u, k)
      {
        OutageOfMore(before, last, t, k);
        assert checks == before + [last];
      }
      assert !Outage(checks, t, |checks|);
    }
  }

  lemma OutageOfMore(checks: seq<StateCheck>, last: StateCheck, t: nat, k: nat)
    requires t >= 1 && k <= |checks|
    ensures Outage(checks + [last], t, k) <==>
              last != Available && Outage(checks, if last == Unavailable then t - 1 else t, k)
  {
    var more := (checks + [last])[k..];
    assert more == checks[k..] + [last] && more[..|more| - 1] == checks[k..];
  }

  // ----- what the loop has seen, and what it makes of the next event -----

  datatype Seen = Seen(polls: seq<bool>, checks: seq<StateCheck>)

  ghost predicate TooManyFailures(cfg: Config, polls: seq<bool>) {
    cfg.pollFailureThreshold > 0 && exists k: nat :: Window(polls, cfg.pollFailureThreshold, k)
  }

  ghost predicate TooLongUnavailable(cfg: Config, checks: seq<StateCheck>) {
    exists k: nat :: Outage(checks, cfg.stateCheckThreshold, k)
  }

  /** The finalized state is asked for. */
  ghost predicate Checks(cfg: Config, seen: Seen, e: Event) {
    e.Poll? && !TooManyFailures(cfg, seen.polls + [e.pingFailed]) && !e.behind && cfg.stateCheckThreshold > 0
  }

  ghost function Sees(cfg: Config, seen: Seen, e: Event): Seen {
    if !e.Poll? then seen
    else if !Checks(cfg, seen, e) then seen.(polls := seen.polls + [e.pingFailed])
    else if e.check == CheckFailed then Seen(seen.polls + [e.pingFailed] + [true], seen.checks + [e.check])
    else Seen(seen.polls + [e.pingFailed], seen.checks + [e.check])
  }

  /** When each outcome must occur, and so when none does: a node that is the last one stays, unless it stands for many
      behind a load balancer. */
  ghost predicate IsDue(cfg: Config, seen: Seen, e: Event, outcome: Outcome) {
    var polledOut := e.Poll? && TooManyFailures(cfg, seen.polls + [e.pingFailed]);
    && (outcome == Stops <==> e.Stop?)
    && (outcome == Unreachable <==>
          e.SubscriptionLost? || (polledOut && (!cfg.hasPool || cfg.loadBalanced || e.others >= 1)))
    && (outcome == OutOfSync(NoNewHead) <==> e.NoNewHeads? && (!cfg.hasPool || cfg.loadBalanced || e.others >= 1))
    && (outcome == OutOfSync(NoNewFinalizedHead) <==>
          e.NoNewFinalizedHeads? && (!cfg.hasPool || cfg.loadBalanced || e.others >= 1))
    && (outcome == OutOfSync(NotInSyncWithPool) <==>
          e.Poll? && !polledOut && e.behind && (cfg.loadBalanced || e.othersAtSync >= 1))
    && (outcome == FinalizedStateNotAvailable <==>
          && e.Poll? && !polledOut && !e.behind && cfg.stateCheckThreshold > 0 && e.check == Unavailable
          && TooLongUnavailable(cfg, seen.checks + [e.check])
          && (!cfg.hasPool || cfg.loadBalanced || e.othersAtCheck >= 2))
  }

  ghost function SeesAll(cfg: Config, events: seq<Event>): Seen {
    if events == [] then Seen([], []) else Sees(cfg, SeesAll(cfg, events[..|events| - 1]), events[|events| - 1])
  }

  ghost predicate WaitsAt(cfg: Config, events: seq<Event>, i: nat)
    requires i < |events|
  {
    IsDue(cfg, SeesAll(cfg, events[..i]), events[i], Waits)
  }

  /** The ping of a poll. */
  method Ping(cfg: Config, failed: bool, pollFailures: uint32, ghost polls: seq<bool>)
      returns (tripped: bool, pollFailures': uint32)
    requires pollFailures == Counter(polls)
    ensures pollFailures' == Counter(polls + [failed])
    ensures tripped <==> TooManyFailures(cfg, polls + [failed])
  {
    pollFailures' := pollFailures;
    if failed {
      if pollFailures' < MAX_UINT32 { pollFailures' := pollFailures' + 1; }
    } else if pollFailures' > 0 {
      pollFailures' := pollFailures' - 1;
    }
    assert (polls + [failed])[..|polls|] == polls;
    tripped := cfg.pollFailureThreshold > 0 && pollFailures' >= cfg.pollFailureThreshold;
    if cfg.pollFailureThreshold > 0 { CounterReachesIffWindow(polls + [failed], cfg.pollFailureThreshold); }
  }

  /** The finalized-state check of a poll. */
  method CheckFinalizedState(cfg: Config, check: StateCheck, pollFailures: uint32, stateFailures: uint32,
                             ghost polls: seq<bool>, ghost checks: seq<StateCheck>)
    returns (tripped: bool, pollFailures': uint32, stateFailures': uint32)
    requires pollFailures == Counter(polls) && stateFailures == StateCounter(checks)
    ensures pollFailures' == Counter(if check == CheckFailed then polls + [true] else polls)
    ensures stateFailures' == StateCounter(checks + [check])
    ensures tripped <==> check == Unavailable && TooLongUnavailable(cfg, checks + [check])
  {
    tripped, pollFailures', stateFailures' := false, pollFailures, stateFailures;
    assert (polls + [true])[..|polls|] == polls && (checks + [check])[..|checks|] == checks;
    match check
    case Available => stateFailures' := 0;
    case CheckFailed => if pollFailures' < MAX_UINT32 { pollFailures' := pollFailures' + 1; }
    case Unavailable =>
      if stateFailures' < MAX_UINT32 { stateFailures' := stateFailures' + 1; }
      tripped := stateFailures' >= cfg.stateCheckThreshold;
      StateCounterReachesIffOutage(checks + [check], cfg.stateCheckThreshold);
  }

  /** One turn of the loop. */
  method HandleEvent(cfg: Config, e: Event, pollFailures: uint32, stateFailures: uint32, ghost seen: Seen)
    returns (outcome: Outcome, pollFailures': uint32, stateFailures': uint32)
    requires pollFailures == Counter(seen.polls) && stateFailures == StateCounter(seen.checks)
    ensures IsDue(cfg, seen, e, outcome)
    ensures pollFailures' == Counter(Sees(cfg, seen, e).polls)
    ensures stateFailures' == StateCounter(Sees(cfg, seen, e).checks)
  {
    pollFailures', stateFailures' := pollFailures, stateFailures;
    match e
    case Stop => outcome := Stops;
    case NewHead => outcome := Waits;
    case SubscriptionLost => outcome := Unreachable;
    case NoNewHeads(others) =>
      outcome := if cfg.hasPool && others < 1 && !cfg.loadBalanced then Waits else OutOfSync(NoNewHead);
    case NoNewFinalizedHeads(others) =>
      outcome := if cfg.hasPool && others < 1 && !cfg.loadBalanced then Waits else OutOfSync(NoNewFinalizedHead);
    case Poll(failed, others, behind, othersAtSync, check, othersAtCheck) =>
      var tripped;
      tripped, pollFailures' := Ping(cfg, failed, pollFailures', seen.polls);
      if tripped {
        outcome := if cfg.hasPool && others < 1 && !cfg.loadBalanced then Waits else Unreachable;
        return;
      }
      if behind {
        outcome := if othersAtSync < 1 && !cfg.loadBalanced then Waits else OutOfSync(NotInSyncWithPool);
        return;
      }
      outcome := Waits;
      if cfg.stateCheckThreshold > 0 {
        tripped, pollFailures', stateFailures' :=
          CheckFinalizedState(cfg, check, pollFailures', stateFailures', seen.polls + [failed], seen.checks);
        if tripped && !(cfg.hasPool && othersAtCheck < 2 && !cfg.loadBalanced) {
          outcome := FinalizedStateNotAvailable;
        }
      }
  }

  /** The transition an outcome of the loop asks for. */
  function Asks(outcome: Outcome): NodeLifecycle.Transition
    requires outcome != Waits && outcome != Stops
  {
    match outcome
    case Unreachable => NodeLifecycle.ToUnreachable
    case OutOfSync(_) => NodeLifecycle.ToOutOfSync
    case FinalizedStateNotAvailable => NodeLifecycle.ToFinalizedStateNotAvailable
  }

  /** Where an outcome takes the node, once the transition it asks for is made. */
  lemma OutcomeIsState(cfg: NodeLifecycle.Config, n: NodeLifecycle.Node, outcome: Outcome,
                       state': NodeLifecycle.NodeState, pc': NodeLifecycle.Pc, loop: NodeLifecycle.Loop)
    requires outcome != Waits && outcome != Stops
    requires NodeLifecycle.Moves(cfg, n, NodeLifecycle.Declaring(Asks(outcome)), state', pc', Wrappers.Some(loop))
    ensures outcome == Unreachable ==>
              state' == NodeLifecycle.Unreachable && loop == NodeLifecycle.UnreachableLoop
    ensures outcome.OutOfSync? ==> state' == NodeLifecycle.OutOfSync && loop == NodeLifecycle.OutOfSyncLoop
    ensures outcome == FinalizedStateNotAvailable ==>
              && state' == NodeLifecycle.FinalizedStateNotAvailable
              && loop == NodeLifecycle.FinalizedStateNotAvailableLoop
  {
    NodeLifecycle.TransitionsLead(cfg, n, Asks(outcome), state', pc', loop);
  }

  /** The event a declaration comes from, with the other live nodes the loop counted before it: two before giving up
      a node for its finalized state, one otherwise, and none asked for only when a subscription is lost. */
  predicate LeavesOthers(e: Event, outcome: Outcome) {
    match outcome
    case Waits => true
    case Stops => true
    case Unreachable => e.SubscriptionLost? || (e.Poll? && e.others >= 1)
    case OutOfSync(issue) =>
      (match issue
       case NotInSyncWithPool => e.Poll? && e.behind && e.othersAtSync >= 1
       case NoNewHead => e.NoNewHeads? && e.others >= 1
       case NoNewFinalizedHead => e.NoNewFinalizedHeads? && e.others >= 1)
    case FinalizedStateNotAvailable => e.Poll? && e.othersAtCheck >= 2
  }

  /** The loop leaves on the first event whose history calls for it, with the outcome that history calls for.  The
      last usable node of a pool is only declared out of it for a lost subscription, or if it is load balanced; and
      whatever the loop asks for is a transition the lifecycle allows it. */
  method AliveLoop(cfg: Config, events: seq<Event>) returns (outcome: Outcome, used: nat)
    ensures used <= |events|
    ensures outcome == Waits ==> used == |events| && forall i :: 0 <= i < used ==> WaitsAt(cfg, events, i)
    ensures outcome != Waits ==> used > 0 && forall i :: 0 <= i < used - 1 ==> WaitsAt(cfg, events, i)
    ensures outcome != Waits ==> IsDue(cfg, SeesAll(cfg, events[..used - 1]), events[used - 1], outcome)
    ensures outcome != Waits && cfg.hasPool && !cfg.loadBalanced ==> LeavesOthers(events[used - 1], outcome)
    ensures outcome != Waits && outcome != Stops ==>
              NodeLifecycle.LoopMoves(NodeLifecycle.AliveLoop, NodeLifecycle.Declaring(Asks(outcome)))
  {
    var pollFailures: uint32, stateFailures: uint32 := 0, 0;
    used := 0;
    while used < |events|
      invariant used <= |events|
      invariant pollFailures == Counter(SeesAll(cfg, events[..used]).polls)
      invariant stateFailures == StateCounter(SeesAll(cfg, events[..used]).checks)
      invariant forall i :: 0 <= i < used ==> WaitsAt(cfg, events, i)
    {
      assert events[..used + 1][..used] == events[..used];
      outcome, pollFailures, stateFailures :=
        HandleEvent(cfg, events[used], pollFailures, stateFailures, SeesAll(cfg, events[..used]));
      used := used + 1;
      if outcome != Waits { return; }
    }
    outcome := Waits;
  }

  // ----- the way back -----

  /** One turn of probeUntilStable; answers that run out are a context that is done. */
  datatype Probe = ProbeSucceeds | ProbeFails | ProbeCancelled

  predicate AllSucceed(probes: seq<Probe>, n: nat) {
    n <= |probes| && forall i :: 0 <= i < n ==> probes[i] == ProbeSucceeds
  }

  /** probeUntilStable: exactly if it is switched off or the next `threshold` polls all succeed may the node come
      back. */
  method ProbeUntilStable(threshold: uint32, pollingEnabled: bool, probes: seq<Probe>) returns (stable: bool)
    ensures stable <==> threshold == 0 || !pollingEnabled || AllSucceed(probes, threshold)
  {
    if threshold == 0 || !pollingEnabled { return true; }
    var successes := 0;
    while successes < threshold
      invariant 0 <= successes <= threshold && successes <= |probes|
      invariant forall i :: 0 <= i < successes ==> probes[i] == ProbeSucceeds
    {
      if successes >= |probes| || probes[successes] != ProbeSucceeds { return false; }
      successes := successes + 1;
    }
    stable := true;
  }
}
