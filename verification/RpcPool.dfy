/** The RPC clients of a pool (multinode/rpc_client_base.go) and the repeatable-read check made before one is handed out
    (multinode/node_fsm.go, multinode/multi_node.go), as one machine: every region under a lock and every channel
    operation is a step, and calls, Close calls and selections interleave in any way. */
module RpcPool {
  import opened Wrappers
  import opened ChainInfos

  /** `cycle` counts the life cycles begun, so the channel of an earlier one is closed.  Each part of latestChainInfo
      carries the call that wrote it. */
  datatype Client = Client(cycle: nat, lock: Option<nat>, latest: ChainInfo, blockBy: Option<nat>,
      finalizedBy: Option<nat>, highest: ChainInfo)

  datatype Pc = Waiting | Observing | Checking | Writing | Unlocking | Returning | Done | Failed

  /** One LatestBlock or LatestFinalizedBlock, from the life cycle it captured to its return. */
  datatype Call = Call(client: nat, finalized: bool, health: bool, cycle: nat, pc: Pc, number: int,
      difficulty: Option<int>)

  /** A Close that has cancelled this life cycle and has yet to reset latestChainInfo. */
  datatype Closer = Closer(client: nat, cycle: nat)

  /** One SelectRPC, begun when `began` answers had been returned; `passed` holds the nodes its last look found
      alive, and `returned` the one it ends with. */
  datatype Selection = Selection(began: nat, check: Option<Check>, passed: map<nat, Passed>, returned: Option<nat>)

  /** isFinalizedBlockOutOfSync on one node: the pool's highest is read client by client, then the node's latest.
      `readAt[c]` is how many answers had been returned when client c was read. */
  datatype Check = Check(node: nat, readAt: seq<nat>, highest: int)

  /** What the node had last seen, and how many answers had been returned when each client was read for the
      comparison. */
  datatype Passed = Passed(latest: int, readAt: seq<nat>)

  /** A number returned without error to a caller that is not a health check. */
  datatype Answer = Answer(client: nat, finalized: bool, number: int)

  datatype Config = Config(finalityTag: bool, offset: nat)

  datatype Pool = Pool(clients: seq<Client>, calls: seq<Call>, closers: set<Closer>, selections: seq<Selection>,
      answers: seq<Answer>)

  datatype Step =
    | Acquire(client: nat, finalized: bool, health: bool)
    | Fail(t: nat)                                          // the RPC answers an error or an invalid head
    | Lock(t: nat, number: int, difficulty: Option<int>)    // it answers a head: OnNewHead takes chainInfoLock
    | Observe(t: nat)
    | CheckCycle(t: nat)
    | Write(t: nat)
    | Unlock(t: nat)
    | Return(t: nat)
    | Cancel(client: nat)
    | Reset(closer: Closer)
    | Select
    | SkipCheck(s: nat, node: nat)                          // the node's own state is not Alive
    | StartCheck(s: nat, node: nat)                         // it is
    | ReadHighest(s: nat)
    | ReadLatest(s: nat)
    | ReturnNode(s: nat, node: nat)                         // SelectRPC succeeds

  function Measure(cfg: Config, info: ChainInfo): int {
    if cfg.finalityTag then info.finalizedBlockNumber else info.blockNumber
  }

  predicate CallAt(p: Pool, t: nat, pc: Pc) {
    t < |p.calls| && p.calls[t].client < |p.clients| && p.calls[t].pc == pc
  }

  predicate Enabled(p: Pool, s: Step) {
    match s
    case Acquire(c, _, _) => c < |p.clients|
    case Fail(t) => CallAt(p, t, Waiting)
    case Lock(t, _, _) => CallAt(p, t, Waiting) && p.clients[p.calls[t].client].lock == None
    case Observe(t) => CallAt(p, t, Observing)
    case CheckCycle(t) => CallAt(p, t, Checking)
    case Write(t) => CallAt(p, t, Writing)
    case Unlock(t) => CallAt(p, t, Unlocking)
    case Return(t) => CallAt(p, t, Returning)
    case Cancel(c) => c < |p.clients|
    case Reset(k) => k in p.closers && k.client < |p.clients| && p.clients[k.client].lock == None
    case Select => true
    case SkipCheck(i, _) => IsLooking(p, i)
    case StartCheck(i, node) => IsLooking(p, i) && node < |p.clients|
    case ReadHighest(i) =>
      && IsChecking(p, i)
      && var check := p.selections[i].check.value;
      && |check.readAt| < |p.clients| && p.clients[|check.readAt|].lock == None
    case ReadLatest(i) =>
      && IsChecking(p, i)
      && var check := p.selections[i].check.value;
      && |check.readAt| == |p.clients| && check.node < |p.clients| && p.clients[check.node].lock == None
    case ReturnNode(i, node) => IsLooking(p, i) && node in p.selections[i].passed
  }

  /** Selection i is between two checks. */
  predicate IsLooking(p: Pool, i: nat) {
    i < |p.selections| && p.selections[i].check == None && p.selections[i].returned == None
  }

  predicate IsChecking(p: Pool, i: nat) {
    i < |p.selections| && p.selections[i].check.Some?
  }

  /** The user's part of OnNewHead and OnNewFinalizedHead. */
  function Observed(c: Client, call: Call): Client {
    if call.health then c
    else if call.finalized
    then c.(highest := c.highest.(finalizedBlockNumber := Max(c.highest.finalizedBlockNumber, call.number)))
    else c.(highest := c.highest.(
              blockNumber := Max(c.highest.blockNumber, call.number),
              totalDifficulty := MaxTotalDifficulty(c.highest.totalDifficulty, call.difficulty)))
  }

  /** The part for the current life cycle. */
  function Written(c: Client, t: nat, call: Call): Client {
    if call.finalized
    then c.(latest := c.latest.(finalizedBlockNumber := call.number), finalizedBy := Some(t))
    else c.(latest := c.latest.(blockNumber := call.number, totalDifficulty := call.difficulty), blockBy := Some(t))
  }

  function MoveTo(p: Pool, t: nat, pc: Pc): seq<Call>
    requires t < |p.calls|
  {
    p.calls[t := p.calls[t].(pc := pc)]
  }

  function Apply(cfg: Config, p: Pool, s: Step): Pool
    requires Enabled(p, s)
  {
    match s
    case Acquire(c, finalized, health) =>
      p.(calls := p.calls + [Call(c, finalized, health, p.clients[c].cycle, Waiting, 0, None)])
    case Fail(t) => p.(calls := MoveTo(p, t, Failed))
    case Lock(t, number, difficulty) =>
      var c := p.calls[t].client;
      p.(clients := p.clients[c := p.clients[c].(lock := Some(t))],
         calls := p.calls[t := p.calls[t].(pc := Observing, number := number, difficulty := difficulty)])
    case Observe(t) =>
      var c := p.calls[t].client;
      p.(clients := p.clients[c := Observed(p.clients[c], p.calls[t])], calls := MoveTo(p, t, Checking))
    case CheckCycle(t) =>
      p.(calls := MoveTo(p, t, if p.calls[t].cycle < p.clients[p.calls[t].client].cycle then Unlocking else Writing))
    case Write(t) =>
      var c := p.calls[t].client;
      p.(clients := p.clients[c := Written(p.clients[c], t, p.calls[t])], calls := MoveTo(p, t, Unlocking))
    case Unlock(t) =>
      var c := p.calls[t].client;
      p.(clients := p.clients[c := p.clients[c].(lock := None)], calls := MoveTo(p, t, Returning))
    case Return(t) =>
      var call := p.calls[t];
      p.(calls := MoveTo(p, t, Done),
         answers := if call.health then p.answers else p.answers + [Answer(call.client, call.finalized, call.number)])
    case Cancel(c) =>
      p.(clients := p.clients[c := p.clients[c].(cycle := p.clients[c].cycle + 1)],
          closers := p.closers + {Closer(c, p.clients[c].cycle)})
    case Reset(k) =>
      var reset := p.clients[k.client].(latest := NOTHING_SEEN, blockBy := None, finalizedBy := None);
      p.(clients := p.clients[k.client := reset],
         closers := p.closers - {k})
    case Select => p.(selections := p.selections + [Selection(|p.answers|, None, map[], None)])
    case SkipCheck(i, node) =>
      p.(selections := p.selections[i := p.selections[i].(passed := p.selections[i].passed - {node})])
    case StartCheck(i, node) => p.(selections := p.selections[i := p.selections[i].(check := Some(Check(node, [], 0)))])
    case ReadHighest(i) =>
      var check := p.selections[i].check.value;
      var highest := Max(check.highest, Measure(cfg, p.clients[|check.readAt|].highest));
      var more := check.(readAt := check.readAt + [|p.answers|], highest := highest);
      p.(selections := p.selections[i := p.selections[i].(check := Some(more))])
    case ReadLatest(i) => p.(selections := p.selections[i := Concluded(cfg, p, p.selections[i])])
    case ReturnNode(i, node) => p.(selections := p.selections[i := p.selections[i].(returned := Some(node))])
  }

  /** The end of a check: the node is alive unless it lags the pool's highest by more than the offset. */
  function Concluded(cfg: Config, p: Pool, sel: Selection): Selection
    requires sel.check.Some? && sel.check.value.node < |p.clients|
  {
    var check := sel.check.value;
    var latest := Measure(cfg, p.clients[check.node].latest);
    sel.(check := None,
         passed := if latest >= check.highest - cfg.offset then sel.passed[check.node := Passed(latest, check.readAt)]
                   else sel.passed - {check.node})
  }

  function Exec(cfg: Config, p: Pool, run: seq<Step>): Option<Pool> {
    if run == [] then Some(p)
    else
      var before := Exec(cfg, p, run[..|run| - 1]);
      if before.Some? && Enabled(before.value, run[|run| - 1])
      then Some(Apply(cfg, before.value, run[|run| - 1]))
      else None
  }

  const FRESH_CLIENT := Client(0, None, NOTHING_SEEN, None, None, NOTHING_SEEN)

  predicate Fresh(p: Pool) {
    && (forall c :: 0 <= c < |p.clients| ==> p.clients[c] == FRESH_CLIENT)
    && p.calls == [] && p.closers == {} && p.selections == [] && p.answers == []
  }

  // ----- locks -----

  predicate HoldsLock(pc: Pc) {
    pc == Observing || pc == Checking || pc == Writing || pc == Unlocking
  }

  /** A client's lock is held by the one call that is inside. */
  ghost predicate LocksFit(p: Pool) {
    forall t :: 0 <= t < |p.calls| ==>
      p.calls[t].client < |p.clients| && (HoldsLock(p.calls[t].pc) <==> p.clients[p.calls[t].client].lock == Some(t))
  }

  ghost predicate HoldersExist(p: Pool) {
    forall c :: 0 <= c < |p.clients| && p.clients[c].lock.Some? ==> p.clients[c].lock.value < |p.calls|
  }

  lemma StepKeepsHolders(cfg: Config, p: Pool, s: Step)
    requires Enabled(p, s) && HoldersExist(p)
    ensures HoldersExist(Apply(cfg, p, s))
  {
  }

  lemma StepKeepsLocks(cfg: Config, p: Pool, s: Step)
    requires Enabled(p, s) && LocksFit(p) && HoldersExist(p)
    ensures LocksFit(Apply(cfg, p, s))
  {
    var p' := Apply(cfg, p, s);
    forall t | 0 <= t < |p'.calls|
      ensures p'.calls[t].client < |p'.clients|
      ensures (HoldsLock(p'.calls[t].pc) <==> p'.clients[p'.calls[t].client].lock == Some(t))
    {
      if s.Acquire? && t == |p.calls| { assert p.clients[s.client].lock != Some(t); }
    }
  }

  // ----- life cycles -----

  /** From the current life cycle, or from one whose Close has yet to reset. */
  predicate TagFits(p: Pool, c: nat, tag: nat)
    requires c < |p.clients|
  {
    tag == p.clients[c].cycle || Closer(c, tag) in p.closers
  }

  /** Call t has an answer and wrote it to client c. */
  predicate WroteTo(p: Pool, t: nat, c: nat, finalized: bool)
    requires c < |p.clients|
  {
    && t < |p.calls| && p.calls[t].client == c && p.calls[t].finalized == finalized
    && (p.calls[t].pc == Unlocking || p.calls[t].pc == Returning || p.calls[t].pc == Done)
    && TagFits(p, c, p.calls[t].cycle)
  }

  /** Each part of latestChainInfo is zero, or the answer of a call of a fitting life cycle. */
  ghost predicate ClientFits(p: Pool, c: nat)
    requires c < |p.clients|
  {
    var client := p.clients[c];
    && (if client.blockBy == None then client.latest.blockNumber == 0 && client.latest.totalDifficulty == None
        else WroteTo(p, client.blockBy.value, c, false)
             && client.latest.blockNumber == p.calls[client.blockBy.value].number
             && client.latest.totalDifficulty == p.calls[client.blockBy.value].difficulty)
    && (if client.finalizedBy == None then client.latest.finalizedBlockNumber == 0
        else WroteTo(p, client.finalizedBy.value, c, true)
             && client.latest.finalizedBlockNumber == p.calls[client.finalizedBy.value].number)
  }

  ghost predicate WriterFits(p: Pool, call: Call) {
    && call.client < |p.clients| && call.cycle <= p.clients[call.client].cycle
    && (call.pc == Writing ==> TagFits(p, call.client, call.cycle))
  }

  ghost predicate CyclesFit(p: Pool) {
    && (forall c :: 0 <= c < |p.clients| ==> ClientFits(p, c))
    && (forall t :: 0 <= t < |p.calls| ==> WriterFits(p, p.calls[t]))
  }

  lemma WroteStays(cfg: Config, p: Pool, s: Step, t: nat, c: nat, finalized: bool)
    requires Enabled(p, s) && c < |p.clients| && WroteTo(p, t, c, finalized)
    requires !s.Reset? || s.closer.client != c
    ensures WroteTo(Apply(cfg, p, s), t, c, finalized)
    ensures Apply(cfg, p, s).calls[t].number == p.calls[t].number
    ensures Apply(cfg, p, s).calls[t].difficulty == p.calls[t].difficulty
  {
  }

  lemma ClientStays(cfg: Config, p: Pool, s: Step, c: nat)
    requires Enabled(p, s) && c < |p.clients| && CyclesFit(p)
    ensures c < |Apply(cfg, p, s).clients| && ClientFits(Apply(cfg, p, s), c)
  {
    assert ClientFits(p, c);
    if !s.Reset? || s.closer.client != c {
      if p.clients[c].blockBy.Some? { WroteStays(cfg, p, s, p.clients[c].blockBy.value, c, false); }
      if p.clients[c].finalizedBy.Some? { WroteStays(cfg, p, s, p.clients[c].finalizedBy.value, c, true); }
      if s.Write? { assert WriterFits(p, p.calls[s.t]); }
    }
  }

  lemma StepKeepsCycles(cfg: Config, p: Pool, s: Step)
    requires Enabled(p, s) && LocksFit(p) && CyclesFit(p)
    ensures CyclesFit(Apply(cfg, p, s))
  {
    var p' := Apply(cfg, p, s);
    forall c | 0 <= c < |p'.clients|
      ensures ClientFits(p', c)
    {
      ClientStays(cfg, p, s, c);
    }
    forall t | 0 <= t < |p'.calls|
      ensures WriterFits(p', p'.calls[t])
    {
      if t < |p.calls| { assert WriterFits(p, p.calls[t]); }
    }
  }

  // ----- user observations -----

  function HighestOf(c: Client, finalized: bool): int {
    if finalized then c.highest.finalizedBlockNumber else c.highest.blockNumber
  }

  /** Observed already, so the tracked maximum covers the number about to be returned. */
  predicate CallCovered(p: Pool, call: Call) {
    call.client < |p.clients|
    && (!call.health && (call.pc == Checking || call.pc == Writing || call.pc == Unlocking || call.pc == Returning) ==>
          call.number <= HighestOf(p.clients[call.client], call.finalized))
  }

  predicate AnswerCovered(p: Pool, a: Answer) {
    a.client < |p.clients| && a.number <= HighestOf(p.clients[a.client], a.finalized)
  }

  ghost predicate AllCovered(p: Pool) {
    && (forall t :: 0 <= t < |p.calls| ==> CallCovered(p, p.calls[t]))
    && (forall i :: 0 <= i < |p.answers| ==> AnswerCovered(p, p.answers[i]))
  }

  /** No step, a Close included, lowers what users have seen. */
  lemma ObservationsNeverFall(cfg: Config, p: Pool, s: Step, c: nat)
    requires Enabled(p, s) && c < |p.clients|
    ensures |Apply(cfg, p, s).clients| == |p.clients|
    ensures forall finalized :: HighestOf(p.clients[c], finalized) <= HighestOf(Apply(cfg, p, s).clients[c], finalized)
    ensures AtMost(p.clients[c].highest.totalDifficulty, Apply(cfg, p, s).clients[c].highest.totalDifficulty)
  {
  }

  lemma StepKeepsCovered(cfg: Config, p: Pool, s: Step)
    requires Enabled(p, s) && AllCovered(p)
    ensures AllCovered(Apply(cfg, p, s))
  {
    var p' := Apply(cfg, p, s);
    forall t | 0 <= t < |p'.calls|
      ensures CallCovered(p', p'.calls[t])
    {
      if t < |p.calls| {
        assert CallCovered(p, p.calls[t]);
        ObservationsNeverFall(cfg, p, s, p.calls[t].client);
      }
    }
    forall i | 0 <= i < |p'.answers|
      ensures AnswerCovered(p', p'.answers[i])
    {
      if i < |p.answers| {
        assert AnswerCovered(p, p.answers[i]);
        ObservationsNeverFall(cfg, p, s, p.answers[i].client);
      } else {
        assert CallCovered(p, p.calls[s.t]);
      }
    }
  }

  // ----- selections -----

  /** Answer i counts for a check: it is of the kind compared, and was there when its client was read. */
  predicate Counts(cfg: Config, p: Pool, readAt: seq<nat>, i: nat) {
    && i < |p.answers| && p.answers[i].finalized == cfg.finalityTag
    && p.answers[i].client < |readAt| && i < readAt[p.answers[i].client]
  }

  ghost predicate ReadsFit(p: Pool, began: nat, readAt: seq<nat>) {
    forall c :: 0 <= c < |readAt| ==> began <= readAt[c] <= |p.answers|
  }

  ghost predicate CheckFits(cfg: Config, p: Pool, check: Check) {
    && |check.readAt| <= |p.clients|
    && forall i: nat :: Counts(cfg, p, check.readAt, i) ==> p.answers[i].number <= check.highest
  }

  ghost predicate PassedFits(cfg: Config, p: Pool, passed: Passed) {
    && |passed.readAt| == |p.clients|
    && forall i: nat :: Counts(cfg, p, passed.readAt, i) ==> p.answers[i].number - cfg.offset <= passed.latest
  }

  ghost predicate SelectionFits(cfg: Config, p: Pool, sel: Selection) {
    && sel.began <= |p.answers|
    && (sel.check.Some? ==> ReadsFit(p, sel.began, sel.check.value.readAt) && CheckFits(cfg, p, sel.check.value))
    && (forall node :: node in sel.passed ==>
          ReadsFit(p, sel.began, sel.passed[node].readAt) && PassedFits(cfg, p, sel.passed[node]))
    && (sel.returned.Some? ==> sel.check == None && sel.returned.value in sel.passed)
  }

  ghost predicate SelectionsFit(cfg: Config, p: Pool) {
    forall i :: 0 <= i < |p.selections| ==> SelectionFits(cfg, p, p.selections[i])
  }

  lemma AnswersOnlyGrow(cfg: Config, p: Pool, s: Step)
    requires Enabled(p, s)
    ensures p.answers <= Apply(cfg, p, s).answers
    ensures |Apply(cfg, p, s).clients| == |p.clients|
  {
  }

  lemma SelectionStays(cfg: Config, p: Pool, p': Pool, sel: Selection)
    requires SelectionFits(cfg, p, sel) && p.answers <= p'.answers && |p.clients| == |p'.clients|
    ensures SelectionFits(cfg, p', sel)
  {
    assert forall i :: 0 <= i < |p.answers| ==> p'.answers[i] == p.answers[i];
    if sel.check.Some? { CountsStay(cfg, p, p', sel.began, sel.check.value.readAt); }
    forall node | node in sel.passed
      ensures PassedFits(cfg, p', sel.passed[node])
    {
      assert PassedFits(cfg, p, sel.passed[node]);
      CountsStay(cfg, p, p', sel.began, sel.passed[node].readAt);
    }
  }

  lemma CountsStay(cfg: Config, p: Pool, p': Pool, began: nat, readAt: seq<nat>)
    requires p.answers <= p'.answers && ReadsFit(p, began, readAt)
    ensures forall i: nat :: Counts(cfg, p', readAt, i) <==> Counts(cfg, p, readAt, i)
  {
    assert forall i :: 0 <= i < |p.answers| ==> p'.answers[i] == p.answers[i];
  }

  lemma ReadHighestFits(cfg: Config, p: Pool, s: Step)
    requires s.ReadHighest? && Enabled(p, s) && AllCovered(p) && SelectionFits(cfg, p, p.selections[s.s])
    ensures SelectionFits(cfg, p, Apply(cfg, p, s).selections[s.s])
  {
    var check := p.selections[s.s].check.value;
    var check' := Apply(cfg, p, s).selections[s.s].check.value;
    forall i: nat | Counts(cfg, p, check'.readAt, i)
      ensures p.answers[i].number <= check'.highest
    {
      assert AnswerCovered(p, p.answers[i]);
      if p.answers[i].client < |check.readAt| { assert Counts(cfg, p, check.readAt, i); }
    }
  }

  lemma ReadLatestFits(cfg: Config, p: Pool, s: Step)
    requires s.ReadLatest? && Enabled(p, s) && SelectionFits(cfg, p, p.selections[s.s])
    ensures SelectionFits(cfg, p, Apply(cfg, p, s).selections[s.s])
  {
    var sel := p.selections[s.s];
    var latest := Measure(cfg, p.clients[sel.check.value.node].latest);
    if latest >= sel.check.value.highest - cfg.offset {
      assert PassedFits(cfg, p, Passed(latest, sel.check.value.readAt));
    }
  }

  lemma OwnStepFits(cfg: Config, p: Pool, s: Step, i: nat)
    requires Enabled(p, s) && AllCovered(p) && i < |p.selections| && SelectionFits(cfg, p, p.selections[i])
    ensures i < |Apply(cfg, p, s).selections| && SelectionFits(cfg, p, Apply(cfg, p, s).selections[i])
  {
    if s.ReadHighest? && s.s == i {
      ReadHighestFits(cfg, p, s);
    } else if s.ReadLatest? && s.s == i {
      ReadLatestFits(cfg, p, s);
    }
  }

  lemma StepKeepsSelections(cfg: Config, p: Pool, s: Step)
    requires Enabled(p, s) && AllCovered(p) && SelectionsFit(cfg, p)
    ensures SelectionsFit(cfg, Apply(cfg, p, s))
  {
    var p' := Apply(cfg, p, s);
    AnswersOnlyGrow(cfg, p, s);
    forall i | 0 <= i < |p'.selections|
      ensures SelectionFits(cfg, p', p'.selections[i])
    {
      if i < |p.selections| {
        OwnStepFits(cfg, p, s, i);
        SelectionStays(cfg, p, p', p'.selections[i]);
      }
    }
  }

  // ----- where the maxima come from -----

  /** Not a health check, and past its observation. */
  predicate IsObserved(call: Call, finalized: bool) {
    && call.finalized == finalized && !call.health
    && (|| call.pc == Checking || call.pc == Writing || call.pc == Unlocking || call.pc == Returning
        || call.pc == Done)
  }

  /** Call t of client c has observed this number for a user. */
  predicate HasObserved(p: Pool, t: nat, c: nat, finalized: bool, number: int) {
    && t < |p.calls| && p.calls[t].client == c && p.calls[t].number == number && IsObserved(p.calls[t], finalized)
  }

  ghost predicate WasObserved(p: Pool, c: nat, finalized: bool, number: int) {
    exists t: nat :: HasObserved(p, t, c, finalized, number)
  }

  /** What a user has seen as the highest of a client is zero, or one of its answers to users. */
  ghost predicate MaximumFits(p: Pool, c: nat, finalized: bool)
    requires c < |p.clients|
  {
    HighestOf(p.clients[c], finalized) == 0 || WasObserved(p, c, finalized, HighestOf(p.clients[c], finalized))
  }

  ghost predicate MaximaFit(p: Pool) {
    forall c, finalized :: 0 <= c < |p.clients| ==> MaximumFits(p, c, finalized)
  }

  /** What a check has read as the pool's highest is zero, or an answer to a user. */
  ghost predicate HighestFits(cfg: Config, p: Pool, highest: int) {
    highest == 0 || exists c: nat :: WasObserved(p, c, cfg.finalityTag, highest)
  }

  ghost predicate ChecksFit(cfg: Config, p: Pool) {
    forall i :: 0 <= i < |p.selections| && p.selections[i].check.Some? ==>
      HighestFits(cfg, p, p.selections[i].check.value.highest)
  }

  lemma ObservedStays(cfg: Config, p: Pool, s: Step, c: nat, finalized: bool, number: int)
    requires Enabled(p, s) && WasObserved(p, c, finalized, number)
    ensures WasObserved(Apply(cfg, p, s), c, finalized, number)
  {
    var t: nat :| HasObserved(p, t, c, finalized, number);
    assert HasObserved(Apply(cfg, p, s), t, c, finalized, number);
  }

  lemma StepKeepsMaxima(cfg: Config, p: Pool, s: Step)
    requires Enabled(p, s) && MaximaFit(p)
    ensures MaximaFit(Apply(cfg, p, s))
  {
    var p' := Apply(cfg, p, s);
    forall c, finalized | 0 <= c < |p'.clients|
      ensures MaximumFits(p', c, finalized)
    {
      assert MaximumFits(p, c, finalized);
      var highest := HighestOf(p.clients[c], finalized);
      if HighestOf(p'.clients[c], finalized) != highest {
        assert HasObserved(p', s.t, c, finalized, HighestOf(p'.clients[c], finalized));
      } else if highest != 0 {
        ObservedStays(cfg, p, s, c, finalized, highest);
      }
    }
  }

  lemma StepKeepsChecks(cfg: Config, p: Pool, s: Step)
    requires Enabled(p, s) && MaximaFit(p) && ChecksFit(cfg, p)
    ensures ChecksFit(cfg, Apply(cfg, p, s))
  {
    var p' := Apply(cfg, p, s);
    forall i | 0 <= i < |p'.selections| && p'.selections[i].check.Some?
      ensures HighestFits(cfg, p', p'.selections[i].check.value.highest)
    {
      HighestStays(cfg, p, s, i);
    }
  }

  lemma HighestStays(cfg: Config, p: Pool, s: Step, i: nat)
    requires Enabled(p, s) && MaximaFit(p) && ChecksFit(cfg, p)
    requires i < |Apply(cfg, p, s).selections| && Apply(cfg, p, s).selections[i].check.Some?
    ensures HighestFits(cfg, Apply(cfg, p, s), Apply(cfg, p, s).selections[i].check.value.highest)
  {
    var highest := Apply(cfg, p, s).selections[i].check.value.highest;
    if highest != 0 {
      if s.ReadHighest? && s.s == i && highest != p.selections[i].check.value.highest {
        var c := |p.selections[i].check.value.readAt|;
        assert MaximumFits(p, c, cfg.finalityTag);
        ObservedStays(cfg, p, s, c, cfg.finalityTag, highest);
      } else {
        var c: nat :| WasObserved(p, c, cfg.finalityTag, highest);
        ObservedStays(cfg, p, s, c, cfg.finalityTag, highest);
      }
    }
  }

  // ----- every run -----

  ghost predicate Inv(cfg: Config, p: Pool) {
    && LocksFit(p)
    && HoldersExist(p)
    && CyclesFit(p)
    && AllCovered(p)
    && SelectionsFit(cfg, p)
    && MaximaFit(p)
    && ChecksFit(cfg, p)
  }

  lemma {:induction false} RunKeepsInv(cfg: Config, p: Pool, run: seq<Step>)
    requires Fresh(p) && Exec(cfg, p, run).Some?
    ensures Inv(cfg, Exec(cfg, p, run).value)
  {
    if run != [] {
      RunKeepsInv(cfg, p, run[..|run| - 1]);
      var before := Exec(cfg, p, run[..|run| - 1]).value;
      StepKeepsHolders(cfg, before, run[|run| - 1]);
      StepKeepsLocks(cfg, before, run[|run| - 1]);
      StepKeepsCycles(cfg, before, run[|run| - 1]);
      StepKeepsCovered(cfg, before, run[|run| - 1]);
      StepKeepsSelections(cfg, before, run[|run| - 1]);
      StepKeepsMaxima(cfg, before, run[|run| - 1]);
      StepKeepsChecks(cfg, before, run[|run| - 1]);
    }
  }

  /** In every interleaving, each part of latestChainInfo is zero or the answer to a request of the current life cycle,
      unless the very Close that cancelled the life cycle of that request has yet to reset; so with no Close in flight
      nothing older is visible. */
  lemma NothingFromEarlierLives(cfg: Config, p: Pool, run: seq<Step>, c: nat)
    requires Fresh(p) && Exec(cfg, p, run).Some? && c < |Exec(cfg, p, run).value.clients|
    ensures var now := Exec(cfg, p, run).value; var client := now.clients[c];
            && (client.latest.blockNumber != 0 || client.latest.totalDifficulty != None ==>
                  exists t :: 0 <= t < |now.calls| && now.calls[t].client == c && !now.calls[t].finalized
                    && client.latest.blockNumber == now.calls[t].number
                    && client.latest.totalDifficulty == now.calls[t].difficulty
                    && (now.calls[t].cycle == client.cycle || Closer(c, now.calls[t].cycle) in now.closers))
            && (client.latest.finalizedBlockNumber != 0 ==>
                  exists t :: 0 <= t < |now.calls| && now.calls[t].client == c && now.calls[t].finalized
                    && client.latest.finalizedBlockNumber == now.calls[t].number
                    && (now.calls[t].cycle == client.cycle || Closer(c, now.calls[t].cycle) in now.closers))
  {
    RunKeepsInv(cfg, p, run);
    assert ClientFits(Exec(cfg, p, run).value, c);
  }

  // ----- closed life cycles -----

  /** Every Close under way has ended an earlier life cycle. */
  ghost predicate ClosersFit(p: Pool) {
    forall k :: k in p.closers ==> k.client < |p.clients| && k.cycle < p.clients[k.client].cycle
  }

  /** How many Close calls of a run have cancelled and not yet reset. */
  function Pending(run: seq<Step>): int {
    if run == [] then 0
    else
      var last := run[|run| - 1];
      Pending(run[..|run| - 1]) + if last.Cancel? then 1 else if last.Reset? then -1 else 0
  }

  lemma StepKeepsClosers(cfg: Config, p: Pool, s: Step)
    requires Enabled(p, s) && ClosersFit(p)
    ensures ClosersFit(Apply(cfg, p, s))
    ensures |Apply(cfg, p, s).closers| == |p.closers| + if s.Cancel? then 1 else if s.Reset? then -1 else 0
  {
    if s.Cancel? { assert Closer(s.client, p.clients[s.client].cycle) !in p.closers; }
  }

  lemma {:induction false} RunCountsClosers(cfg: Config, p: Pool, run: seq<Step>)
    requires Fresh(p) && Exec(cfg, p, run).Some?
    ensures ClosersFit(Exec(cfg, p, run).value) && |Exec(cfg, p, run).value.closers| == Pending(run)
  {
    if run != [] {
      RunCountsClosers(cfg, p, run[..|run| - 1]);
      StepKeepsClosers(cfg, Exec(cfg, p, run[..|run| - 1]).value, run[|run| - 1]);
    }
  }

  /** In every run in which each Close has come to its end, whatever is visible answers a request of the current life
      cycle. */
  lemma {:induction false} OnlyCurrentWhenQuiet(cfg: Config, p: Pool, run: seq<Step>, c: nat)
    requires Fresh(p) && Exec(cfg, p, run).Some? && Pending(run) == 0 && c < |Exec(cfg, p, run).value.clients|
    ensures var now := Exec(cfg, p, run).value; var client := now.clients[c];
            && (client.latest.blockNumber != 0 || client.latest.totalDifficulty != None ==>
                  exists t :: 0 <= t < |now.calls| && now.calls[t].client == c && !now.calls[t].finalized
                    && client.latest.blockNumber == now.calls[t].number && now.calls[t].cycle == client.cycle)
            && (client.latest.finalizedBlockNumber != 0 ==>
                  exists t :: 0 <= t < |now.calls| && now.calls[t].client == c && now.calls[t].finalized
                    && client.latest.finalizedBlockNumber == now.calls[t].number
                    && now.calls[t].cycle == client.cycle)
  {
    RunCountsClosers(cfg, p, run);
    NothingFromEarlierLives(cfg, p, run, c);
  }

  /** Call t captured a life cycle that has ended, and is not about to write. */
  ghost predicate IsStale(p: Pool, t: nat) {
    && t < |p.calls| && p.calls[t].client < |p.clients| && p.calls[t].pc != Writing
    && p.calls[t].cycle < p.clients[p.calls[t].client].cycle
  }

  predicate IsVisible(p: Pool, t: nat)
    requires t < |p.calls| && p.calls[t].client < |p.clients|
  {
    p.clients[p.calls[t].client].blockBy == Some(t) || p.clients[p.calls[t].client].finalizedBy == Some(t)
  }

  lemma StaleStays(cfg: Config, p: Pool, s: Step, t: nat)
    requires Enabled(p, s) && IsStale(p, t)
    ensures IsStale(Apply(cfg, p, s), t) && (IsVisible(Apply(cfg, p, s), t) ==> IsVisible(p, t))
  {
  }

  /** Once the life cycle of a request has ended, its answer never becomes visible, however the run goes on. */
  lemma {:induction false} StaleIsNeverShown(cfg: Config, p: Pool, run: seq<Step>, t: nat)
    requires IsStale(p, t) && Exec(cfg, p, run).Some?
    ensures IsStale(Exec(cfg, p, run).value, t) && (IsVisible(Exec(cfg, p, run).value, t) ==> IsVisible(p, t))
  {
    if run != [] {
      StaleIsNeverShown(cfg, p, run[..|run| - 1], t);
      StaleStays(cfg, Exec(cfg, p, run[..|run| - 1]).value, run[|run| - 1], t);
    }
  }

  /** A Close ends the life cycle of every request made before it; its reset leaves nothing visible. */
  lemma CloseEndsRequests(cfg: Config, p: Pool, s: Step, t: nat)
    requires Inv(cfg, p) && Enabled(p, s) && t < |p.calls| && p.calls[t].pc != Writing
    ensures s == Cancel(p.calls[t].client) ==> IsStale(Apply(cfg, p, s), t)
    ensures s.Reset? && s.closer.client == p.calls[t].client ==>
              Apply(cfg, p, s).clients[s.closer.client].latest == NOTHING_SEEN && !IsVisible(Apply(cfg, p, s), t)
  {
    assert WriterFits(p, p.calls[t]);
  }

  /** What a selection that succeeded tells its caller about an answer. */
  ghost predicate Covers(cfg: Config, p: Pool, sel: nat, i: nat)
    requires sel < |p.selections| && p.selections[sel].returned.Some?
    requires p.selections[sel].returned.value in p.selections[sel].passed
    requires i < |p.answers|
  {
    p.selections[sel].passed[p.selections[sel].returned.value].latest >= p.answers[i].number - cfg.offset
  }

  /** Repeatable read: whatever interleaves with it, when SelectRPC returns a node, what that node had last seen in
      its life cycle at the check is at most `offset` below every number of the kind compared that any node of the
      pool had returned to a user before the check read that node's maximum; and this includes all that were
      returned before SelectRPC began. */
  lemma RepeatableRead(cfg: Config, p: Pool, run: seq<Step>, sel: nat)
    requires Fresh(p) && Exec(cfg, p, run).Some?
    requires sel < |Exec(cfg, p, run).value.selections| && Exec(cfg, p, run).value.selections[sel].returned.Some?
    ensures var now := Exec(cfg, p, run).value; var s := now.selections[sel];
            && s.returned.value in s.passed
            && |s.passed[s.returned.value].readAt| == |now.clients|
            && (forall c :: 0 <= c < |now.clients| ==> s.began <= s.passed[s.returned.value].readAt[c] <= |now.answers|)
            && forall i :: 0 <= i < |now.answers| && now.answers[i].finalized == cfg.finalityTag ==>
                 && now.answers[i].client < |now.clients|
                 && (i < s.passed[s.returned.value].readAt[now.answers[i].client] ==> Covers(cfg, now, sel, i))
                 && (i < s.began ==> Covers(cfg, now, sel, i))
  {
    RunKeepsInv(cfg, p, run);
    ReturnedCovers(cfg, Exec(cfg, p, run).value, sel);
  }

  lemma ReturnedCovers(cfg: Config, now: Pool, sel: nat)
    requires Inv(cfg, now) && sel < |now.selections| && now.selections[sel].returned.Some?
    ensures var s := now.selections[sel];
            && s.returned.value in s.passed
            && |s.passed[s.returned.value].readAt| == |now.clients|
            && (forall c :: 0 <= c < |now.clients| ==> s.began <= s.passed[s.returned.value].readAt[c] <= |now.answers|)
            && forall i :: 0 <= i < |now.answers| && now.answers[i].finalized == cfg.finalityTag ==>
                 && now.answers[i].client < |now.clients|
                 && (i < s.passed[s.returned.value].readAt[now.answers[i].client] ==> Covers(cfg, now, sel, i))
                 && (i < s.began ==> Covers(cfg, now, sel, i))
  {
    assert SelectionFits(cfg, now, now.selections[sel]);
    var passed := now.selections[sel].passed[now.selections[sel].returned.value];
    assert PassedFits(cfg, now, passed);
    forall i | 0 <= i < |now.answers| && now.answers[i].finalized == cfg.finalityTag
      ensures now.answers[i].client < |now.clients|
      ensures i < passed.readAt[now.answers[i].client] ==> Covers(cfg, now, sel, i)
    {
      assert AnswerCovered(now, now.answers[i]);
      if i < passed.readAt[now.answers[i].client] { assert Counts(cfg, now, passed.readAt, i); }
    }
  }

  /** The node is more than the offset behind a number some call observed for a user, or behind zero. */
  ghost predicate IsLagging(cfg: Config, p: Pool, node: nat) {
    && node < |p.clients|
    && var latest := Measure(cfg, p.clients[node].latest);
       || latest + cfg.offset < 0
       || exists c: nat, number :: WasObserved(p, c, cfg.finalityTag, number) && number - cfg.offset > latest
  }

  lemma RejectedIsLagging(cfg: Config, p: Pool, i: nat)
    requires Inv(cfg, p) && Enabled(p, ReadLatest(i))
    ensures var node := p.selections[i].check.value.node; var p' := Apply(cfg, p, ReadLatest(i));
            node !in p'.selections[i].passed ==> IsLagging(cfg, p, node) && IsLagging(cfg, p', node)
  {
    var highest, p' := p.selections[i].check.value.highest, Apply(cfg, p, ReadLatest(i));
    assert HighestFits(cfg, p, highest);
    if highest != 0 {
      var c: nat :| WasObserved(p, c, cfg.finalityTag, highest);
      ObservedStays(cfg, p, ReadLatest(i), c, cfg.finalityTag, highest);
    }
  }

  /** A rejection has a cause: whatever interleaves with it, a check leaves the node out only if some call of the kind
      compared, made for a user, observed a number more than `offset` above what the node has seen, or if zero, the
      highest of a pool that has seen nothing, is. */
  lemma {:induction false} RejectionHasCause(cfg: Config, p: Pool, run: seq<Step>, i: nat)
    requires Fresh(p) && Exec(cfg, p, run).Some? && Enabled(Exec(cfg, p, run).value, ReadLatest(i))
    ensures var now := Exec(cfg, p, run).value; var node := now.selections[i].check.value.node;
            var latest := Measure(cfg, now.clients[node].latest);
            node !in Apply(cfg, now, ReadLatest(i)).selections[i].passed ==>
              || latest + cfg.offset < 0
              || exists t :: 0 <= t < |now.calls| && IsObserved(now.calls[t], cfg.finalityTag)
                             && now.calls[t].number - cfg.offset > latest
  {
    RunKeepsInv(cfg, p, run);
    var now := Exec(cfg, p, run).value;
    RejectedIsLagging(cfg, now, i);
    var node := now.selections[i].check.value.node;
    var latest := Measure(cfg, now.clients[node].latest);
    if node !in Apply(cfg, now, ReadLatest(i)).selections[i].passed && latest + cfg.offset >= 0 {
      var c: nat, number :| WasObserved(now, c, cfg.finalityTag, number) && number - cfg.offset > latest;
      var t: nat :| HasObserved(now, t, c, cfg.finalityTag, number);
      assert now.calls[t].number - cfg.offset > latest;
    }
  }

  // ----- what the check may miss -----

  /** One more step of a run. */
  lemma Then(cfg: Config, p: Pool, run: seq<Step>, now: Pool, s: Step) returns (run': seq<Step>, next: Pool)
    requires Exec(cfg, p, run) == Some(now) && Enabled(now, s)
    ensures next == Apply(cfg, now, s) && Exec(cfg, p, run') == Some(next)
  {
    run', next := run + [s], Apply(cfg, now, s);
    assert run'[..|run|] == run && run'[|run|] == s;
  }

  /** No call was made, and one selection has read k clients in its check of the node. */
  ghost predicate HasRead(p: Pool, now: Pool, node: nat, k: nat) {
    && now.clients == p.clients && now.calls == [] && now.answers == [] && |now.selections| == 1
    && now.selections[0].check.Some? && now.selections[0].returned == None
    && now.selections[0].check.value.node == node && now.selections[0].check.value.highest == 0
    && |now.selections[0].check.value.readAt| == k
    && forall c :: 0 <= c < k ==> now.selections[0].check.value.readAt[c] == 0
  }

  lemma {:induction false} ReadFirst(cfg: Config, p: Pool, node: nat, k: nat) returns (run: seq<Step>, now: Pool)
    requires Fresh(p) && node < |p.clients| && k <= |p.clients|
    ensures Exec(cfg, p, run) == Some(now) && HasRead(p, now, node, k)
  {
    if k == 0 {
      run, now := Then(cfg, p, [], p, Select);
      run, now := Then(cfg, p, run, now, StartCheck(0, node));
    } else {
      run, now := ReadFirst(cfg, p, node, k - 1);
      assert p.clients[k - 1] == FRESH_CLIENT;
      run, now := Then(cfg, p, run, now, ReadHighest(0));
    }
  }

  /** Node c answers a user with number n. */
  lemma Answered(cfg: Config, p: Pool, run: seq<Step>, now: Pool, c: nat, n: int) returns (run': seq<Step>, next: Pool)
    requires Exec(cfg, p, run) == Some(now) && c < |now.clients| && now.clients[c] == FRESH_CLIENT && now.calls == []
    requires now.answers == []
    ensures Exec(cfg, p, run') == Some(next)
    ensures next.answers == [Answer(c, cfg.finalityTag, n)] && next.selections == now.selections
    ensures |next.clients| == |now.clients|
    ensures forall i :: 0 <= i < |now.clients| && i != c ==> next.clients[i] == now.clients[i]
  {
    run', next := Then(cfg, p, run, now, Acquire(c, cfg.finalityTag, false));
    run', next := Then(cfg, p, run', next, Lock(0, n, None));
    run', next := Then(cfg, p, run', next, Observe(0));
    run', next := Then(cfg, p, run', next, CheckCycle(0));
    run', next := Then(cfg, p, run', next, Write(0));
    run', next := Then(cfg, p, run', next, Unlock(0));
    run', next := Then(cfg, p, run', next, Return(0));
  }

  /** The node passes its check and is returned. */
  lemma PassesAndReturns(cfg: Config, p: Pool, run: seq<Step>, now: Pool, node: nat)
      returns (run': seq<Step>, next: Pool)
    requires Exec(cfg, p, run) == Some(now) && node < |now.clients| && now.clients[node] == FRESH_CLIENT
    requires |now.selections| == 1 && now.selections[0].check.Some? && now.selections[0].returned == None
    requires now.selections[0].check.value.node == node && now.selections[0].check.value.highest == 0
    requires |now.selections[0].check.value.readAt| == |now.clients|
    ensures Exec(cfg, p, run') == Some(next) && next.answers == now.answers && |next.selections| == 1
    ensures next.selections[0].returned == Some(node) && node in next.selections[0].passed
    ensures next.selections[0].passed[node] == Passed(0, now.selections[0].check.value.readAt)
  {
    run', next := Then(cfg, p, run, now, ReadLatest(0));
    run', next := Then(cfg, p, run', next, ReturnNode(0, node));
  }

  /** Selection sel returned the node although answer i of client c, returned after c was read, is not covered. */
  ghost predicate MissesAt(cfg: Config, p: Pool, node: nat, c: nat, sel: nat, i: nat) {
    && sel < |p.selections| && p.selections[sel].returned == Some(node) && node in p.selections[sel].passed
    && i < |p.answers| && p.answers[i].finalized == cfg.finalityTag && p.answers[i].client == c
    && c < |p.selections[sel].passed[node].readAt| && p.selections[sel].passed[node].readAt[c] <= i
    && !Covers(cfg, p, sel, i)
  }

  /** A run in which the node is returned although an answer of c is missed. */
  lemma {:induction false} AnswerIsMissed(cfg: Config, p: Pool, node: nat, c: nat) returns (run: seq<Step>, now: Pool)
    requires Fresh(p) && node < |p.clients| && c < |p.clients| && c != node
    ensures Exec(cfg, p, run) == Some(now) && MissesAt(cfg, now, node, c, 0, 0)
  {
    run, now := ReadFirst(cfg, p, node, |p.clients|);
    ghost var readAt := now.selections[0].check.value.readAt;
    assert p.clients[c] == FRESH_CLIENT && p.clients[node] == FRESH_CLIENT && readAt[c] == 0;
    run, now := Answered(cfg, p, run, now, c, cfg.offset + 1);
    run, now := PassesAndReturns(cfg, p, run, now, node);
  }

  /** After that read nothing is promised: in every pool, for any two of its nodes and any offset, one node may be
      returned although a number the other has returned since it was read is ahead of it by more than the offset. */
  lemma {:induction false} LateAnswersMayBeMissed(cfg: Config, p: Pool, node: nat, c: nat)
    requires Fresh(p) && node < |p.clients| && c < |p.clients| && c != node
    ensures exists run, sel: nat, i: nat ::
              Exec(cfg, p, run).Some? && MissesAt(cfg, Exec(cfg, p, run).value, node, c, sel, i)
  {
    var run, now := AnswerIsMissed(cfg, p, node, c);
    assert MissesAt(cfg, Exec(cfg, p, run).value, node, c, 0, 0);
  }
}
