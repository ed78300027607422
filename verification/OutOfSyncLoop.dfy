/** outOfSyncLoop (multinode/node_lifecycle.go): a bitmask of sync issues updated event by event, against a
    recomputation of every issue from the full history of events. */
module OutOfSyncWaiting {
  import opened Wrappers
  import opened ChainInfos

  /** Wide enough for every combination of the flags. */
  type SyncStatus = bv8

  const SYNCED: SyncStatus := 0
  const NOT_IN_SYNC_WITH_POOL: SyncStatus := 2
  const NO_NEW_HEAD: SyncStatus := 4
  const NO_NEW_FINALIZED_HEAD: SyncStatus := 8

  /** What the select of the loop receives; `behind` is what isOutOfSyncWithPool answers if it is asked, `others`
      the live nodes LatestChainInfo counts. */
  datatype Event =
    | Stop
    | HeadArrives(head: Head, behind: bool)
    | NoNewHeads
    | FinalizedHeadArrives(head: Head)
    | NoNewFinalizedHeads
    | SubscriptionLost
    | ZombieCheck(others: nat)

  datatype Config = Config(hasPool: bool, loadBalanced: bool, finalityTag: bool, finalityDepth: nat)

  datatype Outcome = Waits | Stops | Unreachable | BackInSync | ForcedInSync | OutOfSyncAgain(issues: SyncStatus)

  // ----- the issues, from the whole history -----

  /** Event i is a valid head with a number above all heads before it. */
  ghost predicate IsNewHead(start: ChainInfo, h: seq<Event>, i: nat) {
    && i < |h| && h[i].HeadArrives? && h[i].head.valid && h[i].head.number > start.blockNumber
    && forall j :: 0 <= j < i && h[j].HeadArrives? && h[j].head.valid ==> h[j].head.number < h[i].head.number
  }

  ghost predicate IsNewFinalizedHead(start: ChainInfo, h: seq<Event>, i: nat) {
    && i < |h| && h[i].FinalizedHeadArrives? && h[i].head.valid && h[i].head.number > start.finalizedBlockNumber
    && forall j :: 0 <= j < i && h[j].FinalizedHeadArrives? && h[j].head.valid ==> h[j].head.number < h[i].head.number
  }

  /** Raised at entry or by a timeout, and no newer head since. */
  ghost predicate LacksHeads(entry: Issues, start: ChainInfo, h: seq<Event>) {
    || (entry.heads && forall j :: 0 <= j < |h| ==> !IsNewHead(start, h, j))
    || exists i :: 0 <= i < |h| && h[i].NoNewHeads? && forall j :: i < j < |h| ==> !IsNewHead(start, h, j)
  }

  ghost predicate LacksFinalizedHeads(entry: Issues, start: ChainInfo, h: seq<Event>) {
    || (entry.finalized && forall j :: 0 <= j < |h| ==> !IsNewFinalizedHead(start, h, j))
    || exists i ::
         && 0 <= i < |h| && h[i].NoNewFinalizedHeads?
         && forall j :: i < j < |h| ==> !IsNewFinalizedHead(start, h, j)
  }

  /** As of the last newer head, or else as of entry. */
  ghost predicate LagsPool(entry: Issues, start: ChainInfo, h: seq<Event>) {
    || (entry.pool && forall j :: 0 <= j < |h| ==> !IsNewHead(start, h, j))
    || exists i ::
         && 0 <= i < |h| && IsNewHead(start, h, i) && h[i].behind
         && forall j :: i < j < |h| ==> !IsNewHead(start, h, j)
  }

  /** A mask, bit by bit. */
  datatype Issues = Issues(pool: bool, heads: bool, finalized: bool, other: SyncStatus)

  function Decode(s: SyncStatus): Issues {
    Issues(s & NOT_IN_SYNC_WITH_POOL != 0, s & NO_NEW_HEAD != 0, s & NO_NEW_FINALIZED_HEAD != 0, s & !14)
  }

  const NO_ISSUES := Issues(false, false, false, 0)

  ghost function Recomputed(entry: Issues, start: ChainInfo, h: seq<Event>): Issues {
    Issues(LagsPool(entry, start, h), LacksHeads(entry, start, h), LacksFinalizedHeads(entry, start, h), entry.other)
  }

  /** Without finality tags nothing arrives on the finalized subscription, which is never made. */
  predicate Deliverable(cfg: Config, events: seq<Event>) {
    forall i :: 0 <= i < |events| && (events[i].FinalizedHeadArrives? || events[i].NoNewFinalizedHeads?) ==>
        cfg.finalityTag
  }

  // ----- one more event -----

  lemma NewHeadsStay(start: ChainInfo, h: seq<Event>, e: Event)
    ensures forall j :: 0 <= j < |h| ==> (IsNewHead(start, h + [e], j) <==> IsNewHead(start, h, j))
    ensures forall j :: 0 <= j < |h| ==> (IsNewFinalizedHead(start, h + [e], j) <==> IsNewFinalizedHead(start, h, j))
  {
    forall j | 0 <= j < |h|
      ensures IsNewHead(start, h + [e], j) <==> IsNewHead(start, h, j)
      ensures IsNewFinalizedHead(start, h + [e], j) <==> IsNewFinalizedHead(start, h, j)
    {
      assert forall i :: 0 <= i <= j ==> (h + [e])[i] == h[i];
    }
  }

  lemma HeadsAfter(entry: Issues, start: ChainInfo, h: seq<Event>, e: Event)
    ensures LacksHeads(entry, start, h + [e]) <==>
              e.NoNewHeads? || (!IsNewHead(start, h + [e], |h|) && LacksHeads(entry, start, h))
  {
    NewHeadsStay(start, h, e);
    var more := h + [e];
    if e.NoNewHeads? {
      assert more[|h|].NoNewHeads?;
    } else if LacksHeads(entry, start, h) && !IsNewHead(start, more, |h|) {
      if i :| 0 <= i < |h| && h[i].NoNewHeads? && forall j :: i < j < |h| ==> !IsNewHead(start, h, j) {
        assert more[i].NoNewHeads?;
      }
    }
  }

  lemma FinalizedHeadsAfter(entry: Issues, start: ChainInfo, h: seq<Event>, e: Event)
    ensures LacksFinalizedHeads(entry, start, h + [e]) <==>
              e.NoNewFinalizedHeads?
                  || (!IsNewFinalizedHead(start, h + [e], |h|) && LacksFinalizedHeads(entry, start, h))
  {
    NewHeadsStay(start, h, e);
    var more := h + [e];
    if e.NoNewFinalizedHeads? {
      assert more[|h|].NoNewFinalizedHeads?;
    } else if LacksFinalizedHeads(entry, start, h) && !IsNewFinalizedHead(start, more, |h|) {
      if i :|
        && 0 <= i < |h| && h[i].NoNewFinalizedHeads?
        && forall j :: i < j < |h| ==> !IsNewFinalizedHead(start, h, j) {
        assert more[i].NoNewFinalizedHeads?;
      }
    }
  }

  lemma PoolAfter(entry: Issues, start: ChainInfo, h: seq<Event>, e: Event)
    ensures LagsPool(entry, start, h + [e]) <==>
              if IsNewHead(start, h + [e], |h|) then e.behind else LagsPool(entry, start, h)
  {
    NewHeadsStay(start, h, e);
    var more := h + [e];
    if IsNewHead(start, more, |h|) {
      assert more[|h|] == e;
    } else {
      if LagsPool(entry, start, h) {
        if i :|
          && 0 <= i < |h| && IsNewHead(start, h, i) && h[i].behind
          && forall j :: i < j < |h| ==> !IsNewHead(start, h, j) {
          assert IsNewHead(start, more, i) && more[i].behind;
        }
      }
      if LagsPool(entry, start, more) {
        if i :|
          && 0 <= i < |more| && IsNewHead(start, more, i) && more[i].behind
          && forall j :: i < j < |more| ==> !IsNewHead(start, more, j) {
          assert IsNewHead(start, h, i) && h[i].behind;
        }
      }
    }
  }

  lemma HeadBit(s: SyncStatus)
    ensures Decode(s & !NO_NEW_HEAD) == Decode(s).(heads := false)
    ensures Decode(s | NO_NEW_HEAD) == Decode(s).(heads := true)
  {
  }

  lemma FinalizedHeadBit(s: SyncStatus)
    ensures Decode(s & !NO_NEW_FINALIZED_HEAD) == Decode(s).(finalized := false)
    ensures Decode(s | NO_NEW_FINALIZED_HEAD) == Decode(s).(finalized := true)
  {
  }

  lemma PoolBit(s: SyncStatus)
    ensures Decode(s & !NOT_IN_SYNC_WITH_POOL) == Decode(s).(pool := false)
    ensures Decode(s | NOT_IN_SYNC_WITH_POOL) == Decode(s).(pool := true)
  {
  }

  lemma SyncedIsNoIssues(s: SyncStatus)
    ensures s == SYNCED <==> Decode(s) == NO_ISSUES
  {
  }

  // ----- the loop -----

  /** The local view holds the highest valid head and, with finality tags, the highest valid finalized head; without
      them, the finalized number trails the highest head by the finality depth. */
  ghost predicate TracksHighest(cfg: Config, start: ChainInfo, h: seq<Event>, info: ChainInfo) {
    && info.blockNumber >= start.blockNumber
    && (forall j :: 0 <= j < |h| && h[j].HeadArrives? && h[j].head.valid ==> h[j].head.number <= info.blockNumber)
    && (|| info.blockNumber == start.blockNumber
        || exists j :: 0 <= j < |h| && h[j].HeadArrives? && h[j].head.valid && h[j].head.number == info.blockNumber)
    && (!cfg.finalityTag ==>
          var trailing := Max(info.blockNumber - cfg.finalityDepth, 0);
          if info.blockNumber == start.blockNumber then info.finalizedBlockNumber == start.finalizedBlockNumber
          else info.finalizedBlockNumber == Max(start.finalizedBlockNumber, trailing))
    && (cfg.finalityTag ==>
          && info.finalizedBlockNumber >= start.finalizedBlockNumber
          && (forall j :: 0 <= j < |h| && h[j].FinalizedHeadArrives? && h[j].head.valid ==>
                h[j].head.number <= info.finalizedBlockNumber)
          && (info.finalizedBlockNumber == start.finalizedBlockNumber
              || exists j :: 0 <= j < |h| && h[j].FinalizedHeadArrives? && h[j].head.valid
                   && h[j].head.number == info.finalizedBlockNumber))
  }

  /** The local view after an event. */
  function Viewed(cfg: Config, info: ChainInfo, e: Event): ChainInfo {
    match e
    case HeadArrives(head, _) =>
      var moved := OnNewHead(cfg.finalityTag, cfg.finalityDepth, info, head);
      if moved.Some? then moved.value else info
    case FinalizedHeadArrives(head) =>
      var moved := OnNewFinalizedHead(info, head);
      if moved.Some? then moved.value else info
    case _ => info
  }

  /** A comparison with the local view finds exactly the heads that are new in the history. */
  lemma NewIsAboveHighest(cfg: Config, start: ChainInfo, h: seq<Event>, info: ChainInfo, e: Event)
    requires TracksHighest(cfg, start, h, info)
    ensures e.HeadArrives? ==>
              (IsNewHead(start, h + [e], |h|) <==> OnNewHead(cfg.finalityTag, cfg.finalityDepth, info, e.head).Some?)
    ensures e.FinalizedHeadArrives? && cfg.finalityTag ==>
              (IsNewFinalizedHead(start, h + [e], |h|) <==> OnNewFinalizedHead(info, e.head).Some?)
  {
    var more := h + [e];
    assert forall j :: 0 <= j < |h| ==> more[j] == h[j];
    assert more[|h|] == e;
    if e.HeadArrives? && IsNewHead(start, more, |h|) && info.blockNumber != start.blockNumber {
      var j :| 0 <= j < |h| && h[j].HeadArrives? && h[j].head.valid && h[j].head.number == info.blockNumber;
      assert more[j].head.number < e.head.number;
    }
    if e.FinalizedHeadArrives? && cfg.finalityTag && IsNewFinalizedHead(start, more, |h|)
        && info.finalizedBlockNumber != start.finalizedBlockNumber {
      var j :| 0 <= j < |h| && h[j].FinalizedHeadArrives? && h[j].head.valid
          && h[j].head.number == info.finalizedBlockNumber;
      assert more[j].head.number < e.head.number;
    }
  }

  lemma TracksOneMore(cfg: Config, start: ChainInfo, h: seq<Event>, info: ChainInfo, e: Event)
    requires e.FinalizedHeadArrives? ==> cfg.finalityTag
    requires TracksHighest(cfg, start, h, info)
    ensures TracksHighest(cfg, start, h + [e], Viewed(cfg, info, e))
  {
    var more := h + [e];
    assert forall j :: 0 <= j < |h| ==> more[j] == h[j];
    assert more[|h|] == e;
    var seen := Viewed(cfg, info, e);
    if seen.blockNumber != start.blockNumber && seen.blockNumber == info.blockNumber {
      var j :| 0 <= j < |h| && h[j].HeadArrives? && h[j].head.valid && h[j].head.number == info.blockNumber;
      assert more[j].HeadArrives? && more[j].head.valid && more[j].head.number == info.blockNumber;
    }
    if cfg.finalityTag && seen.finalizedBlockNumber != start.finalizedBlockNumber
        && seen.finalizedBlockNumber == info.finalizedBlockNumber {
      var j :| 0 <= j < |h| && h[j].FinalizedHeadArrives? && h[j].head.valid
          && h[j].head.number == info.finalizedBlockNumber;
      assert more[j].FinalizedHeadArrives? && more[j].head.valid && more[j].head.number == info.finalizedBlockNumber;
    }
  }

  /** The issues after an event. */
  function Noted(cfg: Config, info: ChainInfo, issues: Issues, e: Event): Issues {
    match e
    case HeadArrives(head, behind) =>
      if OnNewHead(cfg.finalityTag, cfg.finalityDepth, info, head).Some?
      then issues.(heads := false, pool := behind) else issues
    case NoNewHeads => issues.(heads := true)
    case FinalizedHeadArrives(head) =>
      if OnNewFinalizedHead(info, head).Some? then issues.(finalized := false) else issues
    case NoNewFinalizedHeads => issues.(finalized := true)
    case _ => issues
  }

  datatype View = View(info: ChainInfo, issues: Issues)

  function NotedAll(cfg: Config, entry: Issues, start: ChainInfo, h: seq<Event>): View {
    if h == [] then View(start, entry)
    else
      var before := NotedAll(cfg, entry, start, h[..|h| - 1]);
      View(Viewed(cfg, before.info, h[|h| - 1]), Noted(cfg, before.info, before.issues, h[|h| - 1]))
  }

  /** One event keeps the issues equal to the recomputation. */
  lemma NotedIsRecomputed(cfg: Config, entry: Issues, start: ChainInfo, h: seq<Event>, info: ChainInfo, e: Event)
    requires e.FinalizedHeadArrives? || e.NoNewFinalizedHeads? ==> cfg.finalityTag
    requires TracksHighest(cfg, start, h, info)
    ensures Noted(cfg, info, Recomputed(entry, start, h), e) == Recomputed(entry, start, h + [e])
  {
    NewIsAboveHighest(cfg, start, h, info, e);
    HeadsAfter(entry, start, h, e);
    FinalizedHeadsAfter(entry, start, h, e);
    PoolAfter(entry, start, h, e);
    assert (h + [e])[|h|] == e;
  }

  /** The issues noted event by event are those recomputed from the whole history. */
  lemma {:induction false} NotesAreRecomputation(cfg: Config, entry: Issues, start: ChainInfo, h: seq<Event>)
    requires Deliverable(cfg, h)
    ensures NotedAll(cfg, entry, start, h).issues == Recomputed(entry, start, h)
    ensures TracksHighest(cfg, start, h, NotedAll(cfg, entry, start, h).info)
  {
    if h != [] {
      var before, e := h[..|h| - 1], h[|h| - 1];
      assert h == before + [e];
      NotesAreRecomputation(cfg, entry, start, before);
      NotedIsRecomputed(cfg, entry, start, before, NotedAll(cfg, entry, start, before).info, e);
      TracksOneMore(cfg, start, before, NotedAll(cfg, entry, start, before).info, e);
    }
  }

  predicate Ends(cfg: Config, e: Event) {
    e.Stop? || e.SubscriptionLost? || (e.ZombieCheck? && cfg.hasPool && e.others < 1)
  }

  /** The way out each ending event calls for: the last node of a pool is forced back in sync, or sent round again if it
      stands for many behind a load balancer. */
  predicate EndsAs(cfg: Config, issues: SyncStatus, e: Event, outcome: Outcome) {
    var last := e.ZombieCheck? && cfg.hasPool && e.others == 0;
    && (outcome == Stops <==> e.Stop?)
    && (outcome == Unreachable <==> e.SubscriptionLost?)
    && (outcome == ForcedInSync <==> last && !cfg.loadBalanced)
    && (outcome == OutOfSyncAgain(issues) <==> last && cfg.loadBalanced)
    && (outcome == Waits <==> !e.Stop? && !e.SubscriptionLost? && !last)
  }

  /** What a newer head does to the mask. */
  method NoteHead(issues: SyncStatus, behind: bool) returns (issues': SyncStatus)
    ensures Decode(issues') == Decode(issues).(heads := false, pool := behind)
  {
    HeadBit(issues);
    issues' := issues & !NO_NEW_HEAD;
    PoolBit(issues');
    if !behind {
      issues' := issues' & !NOT_IN_SYNC_WITH_POOL;
    } else {
      issues' := issues' | NOT_IN_SYNC_WITH_POOL;
    }
  }

  method NoteFinalizedHead(issues: SyncStatus) returns (issues': SyncStatus)
    ensures Decode(issues') == Decode(issues).(finalized := false)
  {
    FinalizedHeadBit(issues);
    issues' := issues & !NO_NEW_FINALIZED_HEAD;
  }

  method NoteTimeout(issues: SyncStatus, finalized: bool) returns (issues': SyncStatus)
    ensures Decode(issues') == if finalized then Decode(issues).(finalized := true) else Decode(issues).(heads := true)
  {
    FinalizedHeadBit(issues);
    HeadBit(issues);
    issues' := issues | if finalized then NO_NEW_FINALIZED_HEAD else NO_NEW_HEAD;
  }

  /** The select of the loop. */
  method HandleEvent(cfg: Config, e: Event, info: ChainInfo, issues: SyncStatus)
      returns (outcome: Outcome, info': ChainInfo, issues': SyncStatus)
    ensures info' == Viewed(cfg, info, e) && Decode(issues') == Noted(cfg, info, Decode(issues), e)
    ensures EndsAs(cfg, issues, e, outcome) && (Ends(cfg, e) <==> outcome != Waits)
    ensures (Ends(cfg, e) ==> issues' == issues)
  {
    info', issues', outcome := info, issues, Waits;
    match e
    case Stop => outcome := Stops;
    case SubscriptionLost => outcome := Unreachable;
    case HeadArrives(head, behind) =>
      var moved := OnNewHead(cfg.finalityTag, cfg.finalityDepth, info, head);
      if moved.Some? {
        info' := moved.value;
        issues' := NoteHead(issues', behind);
      }
    case NoNewHeads => issues' := NoteTimeout(issues', false);
    case FinalizedHeadArrives(head) =>
      var moved := OnNewFinalizedHead(info, head);
      if moved.Some? {
        info' := moved.value;
        issues' := NoteFinalizedHead(issues');
      }
    case NoNewFinalizedHeads => issues' := NoteTimeout(issues', true);
    case ZombieCheck(others) =>
      if cfg.hasPool && others < 1 { outcome := if cfg.loadBalanced then OutOfSyncAgain(issues) else ForcedInSync; }
  }

  /** The loop itself, against the issues noted so far. */
  method WaitForSync(cfg: Config, entry: SyncStatus, start: ChainInfo, events: seq<Event>)
    returns (outcome: Outcome, used: nat, issues: SyncStatus)
    ensures used <= |events|
    ensures Decode(issues) == NotedAll(cfg, Decode(entry), start, events[..used]).issues
    ensures outcome == BackInSync <==> Decode(issues) == NO_ISSUES
    ensures forall i :: 0 <= i < used ==> NotedAll(cfg, Decode(entry), start, events[..i]).issues != NO_ISSUES
    ensures forall i :: 0 <= i < used - 1 ==> !Ends(cfg, events[i])
    ensures outcome == Waits ==> used == |events|
    ensures outcome == Waits || outcome == BackInSync ==> forall i :: 0 <= i < used ==> !Ends(cfg, events[i])
    ensures outcome != Waits && outcome != BackInSync ==>
              used > 0 && Ends(cfg, events[used - 1]) && EndsAs(cfg, issues, events[used - 1], outcome)
  {
    var info := start;
    used, issues := 0, entry;
    while true
      invariant used <= |events|
      invariant View(info, Decode(issues)) == NotedAll(cfg, Decode(entry), start, events[..used])
      invariant forall i :: 0 <= i < used ==> NotedAll(cfg, Decode(entry), start, events[..i]).issues != NO_ISSUES
      invariant forall i :: 0 <= i < used ==> !Ends(cfg, events[i])
      decreases |events| - used
    {
      SyncedIsNoIssues(issues);
      if issues == SYNCED { return BackInSync, used, issues; }
      if used == |events| { return Waits, used, issues; }
      assert events[..used + 1][..used] == events[..used];
      outcome, info, issues := HandleEvent(cfg, events[used], info, issues);
      used := used + 1;
      if outcome != Waits { return; }
    }
  }

  /** outOfSyncLoop: the mask is a recomputation from the whole history at every turn; the node goes back to Alive
      by itself exactly at the first moment the recomputation finds no issue, and leaves in another way exactly on
      the first event that makes it. */
  method OutOfSyncLoop(cfg: Config, entry: SyncStatus, start: ChainInfo, events: seq<Event>)
    returns (outcome: Outcome, used: nat, issues: SyncStatus)
    ensures used <= |events|
    ensures Decode(issues) == NotedAll(cfg, Decode(entry), start, events[..used]).issues
    ensures Deliverable(cfg, events) ==> Decode(issues) == Recomputed(Decode(entry), start, events[..used])
    ensures outcome == BackInSync <==> Decode(issues) == NO_ISSUES
    ensures forall i :: 0 <= i < used ==> NotedAll(cfg, Decode(entry), start, events[..i]).issues != NO_ISSUES
    ensures Deliverable(cfg, events) ==>
              forall i :: 0 <= i < used ==> Recomputed(Decode(entry), start, events[..i]) != NO_ISSUES
    ensures forall i :: 0 <= i < used - 1 ==> !Ends(cfg, events[i])
    ensures outcome == Waits ==> used == |events|
    ensures outcome == Waits || outcome == BackInSync ==> forall i :: 0 <= i < used ==> !Ends(cfg, events[i])
    ensures outcome != Waits && outcome != BackInSync ==>
              used > 0 && Ends(cfg, events[used - 1]) && EndsAs(cfg, issues, events[used - 1], outcome)
  {
    outcome, used, issues := WaitForSync(cfg, entry, start, events);
    forall i | 0 <= i <= used && Deliverable(cfg, events)
      ensures NotedAll(cfg, Decode(entry), start, events[..i]).issues == Recomputed(Decode(entry), start, events[..i])
    {
      NotesAreRecomputation(cfg, Decode(entry), start, events[..i]);
    }
  }

  /** No issue is left exactly when each one raised has since been cleared: a timeout by a later newer head of its
      kind, a lag behind the pool by the last newer head. */
  lemma SyncedIffAllCleared(entry: Issues, start: ChainInfo, h: seq<Event>)
    ensures Recomputed(entry, start, h) == NO_ISSUES <==>
              && entry.other == 0
              && (entry.heads || entry.pool ==> exists j :: 0 <= j < |h| && IsNewHead(start, h, j))
              && (entry.finalized ==> exists j :: 0 <= j < |h| && IsNewFinalizedHead(start, h, j))
              && (forall i :: 0 <= i < |h| && h[i].NoNewHeads? ==> exists j :: i < j < |h| && IsNewHead(start, h, j))
              && (forall i :: 0 <= i < |h| && h[i].NoNewFinalizedHeads? ==>
                    exists j :: i < j < |h| && IsNewFinalizedHead(start, h, j))
              && (forall i :: 0 <= i < |h| && IsNewHead(start, h, i) && h[i].behind ==>
                    exists j :: i < j < |h| && IsNewHead(start, h, j) && !h[j].behind)
  {
    if Recomputed(entry, start, h) == NO_ISSUES {
      forall i | 0 <= i < |h| && IsNewHead(start, h, i) && h[i].behind
        ensures exists j :: i < j < |h| && IsNewHead(start, h, j) && !h[j].behind
      {
        LagNeedsCatchingUp(entry, start, h, i);
      }
    }
  }

  /** A lag behind the pool seen by a newer head is only cleared by a still newer head that sees none. */
  lemma {:induction false} LagNeedsCatchingUp(entry: Issues, start: ChainInfo, h: seq<Event>, i: nat)
    requires !LagsPool(entry, start, h) && IsNewHead(start, h, i) && h[i].behind
    ensures exists j :: i < j < |h| && IsNewHead(start, h, j) && !h[j].behind
    decreases |h| - i
  {
    var j :| i < j < |h| && IsNewHead(start, h, j);
    if h[j].behind { LagNeedsCatchingUp(entry, start, h, j); }
  }
}
