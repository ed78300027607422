/** SendTransaction (multinode/transaction_sender.go) as a protocol: one goroutine for each primary node, the
    collector that waits for a quorum, the reporter of anomalies, and the goroutine that closes the two unbuffered
    channels.  A send and its receive are one step. */
module TxSender {
  import opened Wrappers
  import opened ReturnCodes
  import opened SendResults

  datatype NodePc = Broadcasting | SendingResult | SendingReport | Finished

  /** A primary node's goroutine: its answer, and whether the collector and the reporter took it. */
  datatype Node = Node(pc: NodePc, result: SendTxResult, delivered: bool, reported: bool)

  datatype Collector = Launching | Collecting | Aggregated | GaveUp

  datatype Closer = NotStarted | AwaitingNodes | ReportsClosed | AllClosed

  datatype Reporter = Idle | Reporting | Reported

  /** What the collector received: a node's answer, or the zero value of the closed channel. */
  datatype Taken = From(node: nat) | Zero

  datatype Sender = Sender(
    nodes: seq<Node>,
    cancelled: bool,      // the caller's context is done
    stopped: bool,        // chStop is closed
    returned: bool,       // SendTransaction has returned, so its own cancel has run
    collector: Collector,
    closer: Closer,
    reporter: Reporter,
    taken: seq<Taken>,
    reports: seq<nat>,
    panicked: bool)

  const NO_RESULT := SendTxResult("", Unassigned, None)

  const CALLED := Sender([], false, false, false, Launching, NotStarted, Idle, [], [], false)

  /** The quorum of sendTxQuorum = 0.7, rounded up. */
  function Required(n: nat): nat { (7 * n + 9) / 10 }

  predicate CtxDone(s: Sender) { s.cancelled || s.stopped || s.returned }

  function ResultOf(s: Sender, t: Taken): SendTxResult {
    if t.From? && t.node < |s.nodes| then s.nodes[t.node].result else NO_RESULT
  }

  datatype Step =
    | Launch                          // DoAll reaches an alive primary node
    | EndLaunch(failed: bool)         // DoAll returns
    | Answer(i: nat, result: SendTxResult)
    | Abandon(i: nat)                 // the goroutine sees its context done
    | Deliver(i: nat)                 // txResults <- r meets the collector
    | Report(i: nat)                  // txResultsToReport <- r meets the reporter
    | DropReport(i: nat)              // the goroutine sees the sender stopped
    | SendOnClosed(i: nat)
    | CloseReports
    | CloseResults
    | TakeZero                        // the collector receives from the closed channel
    | SoftTimeout
    | GiveUp                          // the collector sees its context done
    | EndReports
    | ReturnToCaller
    | Cancel
    | Stop

  predicate NodeAt(s: Sender, i: nat, pc: NodePc) { i < |s.nodes| && s.nodes[i].pc == pc }

  predicate ResultsOpen(s: Sender) { s.closer != AllClosed }

  predicate ReportsOpen(s: Sender) { s.closer != ReportsClosed && s.closer != AllClosed }

  predicate Enabled(s: Sender, step: Step) {
    match step
    case Launch => s.collector == Launching
    case EndLaunch(failed) => s.collector == Launching && (failed ==> CtxDone(s))
    case Answer(i, result) => NodeAt(s, i, Broadcasting) && result.code != Unassigned
    case Abandon(i) => NodeAt(s, i, SendingResult) && CtxDone(s)
    case Deliver(i) => NodeAt(s, i, SendingResult) && s.collector == Collecting && ResultsOpen(s)
    case Report(i) => NodeAt(s, i, SendingReport) && s.reporter == Reporting && ReportsOpen(s)
    case DropReport(i) => NodeAt(s, i, SendingReport) && s.stopped
    case SendOnClosed(i) =>
      (NodeAt(s, i, SendingResult) && !ResultsOpen(s)) || (NodeAt(s, i, SendingReport) && !ReportsOpen(s))
    case CloseReports => s.closer == AwaitingNodes && forall i :: 0 <= i < |s.nodes| ==> s.nodes[i].pc == Finished
    case CloseResults => s.closer == ReportsClosed
    case TakeZero => s.collector == Collecting && !ResultsOpen(s)
    case SoftTimeout => s.collector == Collecting && |s.taken| > 0
    case GiveUp => s.collector == Collecting && CtxDone(s)
    case EndReports => s.reporter == Reporting && !ReportsOpen(s)
    case ReturnToCaller => s.collector == Aggregated || s.collector == GaveUp
    case Cancel => true
    case Stop => true
  }

  /** The collector takes one more result, and stops at a success or at the quorum. */
  function Take(s: Sender, t: Taken): Sender {
    s.(taken := s.taken + [t],
       collector := if ResultOf(s, t).code in SUCCESSFUL_CODES || |s.taken| + 1 >= Required(|s.nodes|)
                    then Aggregated else Collecting)
  }

  function Apply(s: Sender, step: Step): Sender
    requires Enabled(s, step)
  {
    match step
    case Launch => s.(nodes := s.nodes + [Node(Broadcasting, NO_RESULT, false, false)])
    case EndLaunch(failed) =>
      if failed || |s.nodes| == 0 then s.(closer := AwaitingNodes, collector := GaveUp)
      else s.(closer := AwaitingNodes, collector := Collecting, reporter := Reporting)
    case Answer(i, result) => s.(nodes := s.nodes[i := s.nodes[i].(pc := SendingResult, result := result)])
    case Abandon(i) => s.(nodes := s.nodes[i := s.nodes[i].(pc := Finished)])
    case Deliver(i) => Take(s.(nodes := s.nodes[i := s.nodes[i].(pc := SendingReport, delivered := true)]), From(i))
    case Report(i) =>
      s.(nodes := s.nodes[i := s.nodes[i].(pc := Finished, reported := true)], reports := s.reports + [i])
    case DropReport(i) => s.(nodes := s.nodes[i := s.nodes[i].(pc := Finished)])
    case SendOnClosed(_) => s.(panicked := true)
    case CloseReports => s.(closer := ReportsClosed)
    case CloseResults => s.(closer := AllClosed)
    case TakeZero => Take(s, Zero)
    case SoftTimeout => s.(collector := Aggregated)
    case GiveUp => s.(collector := GaveUp)
    case EndReports => s.(reporter := Reported)
    case ReturnToCaller => s.(returned := true)
    case Cancel => s.(cancelled := true)
    case Stop => s.(stopped := true)
  }

  function Exec(s: Sender, run: seq<Step>): Option<Sender> {
    if run == [] then Some(s)
    else
      var before := Exec(s, run[..|run| - 1]);
      if before.Some? && Enabled(before.value, run[|run| - 1]) then Some(Apply(before.value, run[|run| - 1])) else None
  }

  // ----- what every step keeps -----

  predicate NodeFits(s: Sender, n: Node) {
    match n.pc
    case Broadcasting => !n.delivered && !n.reported
    case SendingResult => !n.delivered && !n.reported && n.result.code != Unassigned
    case SendingReport => n.delivered && !n.reported && n.result.code != Unassigned
    case Finished =>
      && n.result.code != Unassigned
      && (n.reported ==> n.delivered)
      && (!n.delivered ==> CtxDone(s))
      && (n.delivered && !n.reported ==> s.stopped)
  }

  ghost predicate NodesFit(s: Sender) {
    && (forall i :: 0 <= i < |s.nodes| ==> NodeFits(s, s.nodes[i]))
    && (!ReportsOpen(s) ==> forall i :: 0 <= i < |s.nodes| ==> s.nodes[i].pc == Finished)
  }

  /** The collector has each delivered answer once, the reporter each reported one once. */
  ghost predicate CountsFit(s: Sender) {
    && (forall i: nat :: From(i) in s.taken <==> i < |s.nodes| && s.nodes[i].delivered)
    && (forall i: nat :: i in s.reports <==> i < |s.nodes| && s.nodes[i].reported)
    && (forall j, k :: 0 <= j < k < |s.taken| && s.taken[j].From? ==> s.taken[j] != s.taken[k])
    && (forall j, k :: 0 <= j < k < |s.reports| ==> s.reports[j] != s.reports[k])
  }

  ghost predicate CollectorFits(s: Sender) {
    && (s.collector == Launching <==> s.closer == NotStarted)
    && (s.collector == Launching ==> s.reporter == Idle && s.taken == [])
    && (s.collector == Collecting ==> s.reporter != Idle)
    && (s.collector == Launching || s.collector == Collecting ==> !s.returned)
    && (s.collector == Collecting ==>
          && |s.nodes| > 0 && |s.taken| < Required(|s.nodes|)
          && forall k :: 0 <= k < |s.taken| ==> ResultOf(s, s.taken[k]).code !in SUCCESSFUL_CODES)
    && (s.collector == Aggregated ==>
          && 0 < |s.taken| <= Required(|s.nodes|)
          && forall k :: 0 <= k < |s.taken| - 1 ==> ResultOf(s, s.taken[k]).code !in SUCCESSFUL_CODES)
    && (Zero in s.taken ==> s.cancelled || s.stopped)
    && (s.collector == GaveUp ==> s.cancelled || s.stopped || |s.nodes| == 0)
  }

  ghost predicate Inv(s: Sender) {
    NodesFit(s) && CountsFit(s) && CollectorFits(s) && !s.panicked && (s.reporter == Reported ==> !ReportsOpen(s))
  }

  lemma QuorumIsWithinReach(n: nat)
    ensures Required(n) <= n
    ensures n > 0 ==> Required(n) > 0
    ensures 7 * n <= 10 * Required(n) < 7 * n + 10
  {
  }

  lemma {:induction false} Pigeonhole(n: nat, s: seq<Taken>)
    requires forall i :: 0 <= i < n ==> From(i) in s
    ensures |s| >= n
  {
    if n > 0 {
      var k :| 0 <= k < |s| && s[k] == From(n - 1);
      var rest := s[..k] + s[k + 1..];
      forall i | 0 <= i < n - 1
        ensures From(i) in rest
      {
        var j :| 0 <= j < |s| && s[j] == From(i);
        assert rest[if j < k then j else j - 1] == From(i);
      }
      Pigeonhole(n - 1, rest);
    }
  }

  /** With its context live the collector is not there any more when the channel is closed: it has had every answer. */
  lemma ClosedMeansCancelled(s: Sender)
    requires Inv(s) && s.collector == Collecting && !ResultsOpen(s)
    ensures s.cancelled || s.stopped
  {
    QuorumIsWithinReach(|s.nodes|);
    if !s.cancelled && !s.stopped {
      forall i: nat | i < |s.nodes|
        ensures From(i) in s.taken
      {
        assert NodeFits(s, s.nodes[i]);
      }
      Pigeonhole(|s.nodes|, s.taken);
      assert false;
    }
  }

  predicate IsOwnStep(step: Step, i: nat) {
    (step.Answer? || step.Abandon? || step.Deliver? || step.Report? || step.DropReport?) && step.i == i
  }

  lemma OwnStepKeepsNode(s: Sender, step: Step, i: nat)
    requires i < |s.nodes| && NodeFits(s, s.nodes[i]) && Enabled(s, step) && IsOwnStep(step, i)
    ensures i < |Apply(s, step).nodes| && NodeFits(Apply(s, step), Apply(s, step).nodes[i])
  {
  }

  lemma OtherStepKeepsNode(s: Sender, step: Step, i: nat)
    requires i < |s.nodes| && Enabled(s, step) && !IsOwnStep(step, i)
    ensures i < |Apply(s, step).nodes| && Apply(s, step).nodes[i] == s.nodes[i]
    ensures (CtxDone(s) ==> CtxDone(Apply(s, step))) && (s.stopped ==> Apply(s, step).stopped)
  {
  }

  lemma StepKeepsNode(s: Sender, step: Step, i: nat)
    requires i < |s.nodes| && NodeFits(s, s.nodes[i]) && Enabled(s, step)
    ensures i < |Apply(s, step).nodes| && NodeFits(Apply(s, step), Apply(s, step).nodes[i])
  {
    if IsOwnStep(step, i) {
      OwnStepKeepsNode(s, step, i);
    } else {
      OtherStepKeepsNode(s, step, i);
    }
  }

  lemma ClosedStaysFinished(s: Sender, step: Step)
    requires NodesFit(s) && CollectorFits(s) && Enabled(s, step)
    ensures var s' := Apply(s, step);
            !ReportsOpen(s') ==> forall i :: 0 <= i < |s'.nodes| ==> s'.nodes[i].pc == Finished
  {
  }

  lemma StepKeepsNodes(s: Sender, step: Step)
    requires Inv(s) && Enabled(s, step)
    ensures NodesFit(Apply(s, step))
  {
    var s' := Apply(s, step);
    ClosedStaysFinished(s, step);
    forall i | 0 <= i < |s'.nodes|
      ensures NodeFits(s', s'.nodes[i])
    {
      if i < |s.nodes| { StepKeepsNode(s, step, i); }
    }
  }

  lemma NeverSendsOnClosed(s: Sender, step: Step)
    requires Inv(s) && step.SendOnClosed?
    ensures !Enabled(s, step)
  {
  }

  lemma DeliverKeepsCounts(s: Sender, step: Step)
    requires Inv(s) && Enabled(s, step) && step.Deliver?
    ensures CountsFit(Apply(s, step))
  {
    assert NodeFits(s, s.nodes[step.i]);
    assert From(step.i) !in s.taken;
  }

  lemma ReportKeepsCounts(s: Sender, step: Step)
    requires Inv(s) && Enabled(s, step) && step.Report?
    ensures CountsFit(Apply(s, step))
  {
    assert NodeFits(s, s.nodes[step.i]);
    assert step.i !in s.reports;
  }

  lemma OthersKeepFlags(s: Sender, step: Step)
    requires Inv(s) && Enabled(s, step) && !step.Deliver? && !step.Report?
    ensures var s' := Apply(s, step);
            && |s'.nodes| >= |s.nodes|
            && (forall i :: 0 <= i < |s.nodes| ==>
                  s'.nodes[i].delivered == s.nodes[i].delivered && s'.nodes[i].reported == s.nodes[i].reported)
            && (forall i :: |s.nodes| <= i < |s'.nodes| ==> !s'.nodes[i].delivered && !s'.nodes[i].reported)
            && s'.reports == s.reports && (s'.taken == s.taken || s'.taken == s.taken + [Zero])
  {
  }

  lemma StepKeepsCounts(s: Sender, step: Step)
    requires Inv(s) && Enabled(s, step)
    ensures CountsFit(Apply(s, step))
  {
    if step.Deliver? {
      DeliverKeepsCounts(s, step);
    } else if step.Report? {
      ReportKeepsCounts(s, step);
    } else {
      OthersKeepFlags(s, step);
    }
  }

  /** An answer the collector has does not change any more. */
  lemma ResultsStay(s: Sender, step: Step, t: Taken)
    requires Inv(s) && Enabled(s, step) && t in s.taken
    ensures ResultOf(Apply(s, step), t) == ResultOf(s, t)
  {
    if step.Answer? { assert NodeFits(s, s.nodes[step.i]); }
  }

  lemma TakeKeepsCollector(s: Sender, step: Step)
    requires Inv(s) && Enabled(s, step) && (step.Deliver? || step.TakeZero?)
    requires forall k :: 0 <= k < |s.taken| ==> ResultOf(Apply(s, step), s.taken[k]) == ResultOf(s, s.taken[k])
    ensures CollectorFits(Apply(s, step))
  {
    if step.TakeZero? { ClosedMeansCancelled(s); }
  }

  predicate MovesCollector(step: Step) { step.EndLaunch? || step.SoftTimeout? || step.GiveUp? }

  lemma MoveKeepsCollector(s: Sender, step: Step)
    requires Inv(s) && Enabled(s, step) && MovesCollector(step)
    ensures CollectorFits(Apply(s, step))
  {
    QuorumIsWithinReach(|s.nodes|);
  }

  lemma OthersKeepCollector(s: Sender, step: Step)
    requires Inv(s) && Enabled(s, step) && !step.Deliver? && !step.TakeZero? && !MovesCollector(step)
    requires forall k :: 0 <= k < |s.taken| ==> ResultOf(Apply(s, step), s.taken[k]) == ResultOf(s, s.taken[k])
    ensures CollectorFits(Apply(s, step))
  {
  }

  lemma StepKeepsCollector(s: Sender, step: Step)
    requires Inv(s) && Enabled(s, step)
    ensures CollectorFits(Apply(s, step))
  {
    forall k | 0 <= k < |s.taken|
      ensures ResultOf(Apply(s, step), s.taken[k]) == ResultOf(s, s.taken[k])
    {
      ResultsStay(s, step, s.taken[k]);
    }
    if step.Deliver? || step.TakeZero? {
      TakeKeepsCollector(s, step);
    } else if MovesCollector(step) {
      MoveKeepsCollector(s, step);
    } else {
      OthersKeepCollector(s, step);
    }
  }

  lemma StepKeepsInv(s: Sender, step: Step)
    requires Inv(s) && Enabled(s, step)
    ensures Inv(Apply(s, step))
  {
    StepKeepsNodes(s, step);
    StepKeepsCounts(s, step);
    StepKeepsCollector(s, step);
    if step.SendOnClosed? { NeverSendsOnClosed(s, step); }
  }

  lemma {:induction false} RunKeepsInv(run: seq<Step>)
    requires Exec(CALLED, run).Some?
    ensures Inv(Exec(CALLED, run).value)
  {
    if run != [] {
      RunKeepsInv(run[..|run| - 1]);
      StepKeepsInv(Exec(CALLED, run[..|run| - 1]).value, run[|run| - 1]);
    }
  }

  // ----- every run -----

  /** What a step changes of what has happened. */
  ghost predicate Marks(s: Sender, s': Sender, step: Step) {
    && (s'.cancelled <==> s.cancelled || step == Cancel) && (s'.stopped <==> s.stopped || step == Stop)
    && (s'.returned <==> s.returned || step == ReturnToCaller)
    && (s'.reporter == Reported <==> s.reporter == Reported || step == EndReports)
    && (ReportsOpen(s') <==> ReportsOpen(s) && step != CloseReports)
    && (ResultsOpen(s') <==> ResultsOpen(s) && step != CloseResults)
    && !step.SendOnClosed?
  }

  lemma StepMarks(s: Sender, step: Step)
    requires Inv(s) && Enabled(s, step)
    ensures Marks(s, Apply(s, step), step)
  {
    if step.SendOnClosed? { NeverSendsOnClosed(s, step); }
  }

  ghost predicate Tells(s: Sender, run: seq<Step>) {
    && (s.cancelled <==> Cancel in run) && (s.stopped <==> Stop in run)
    && (s.returned <==> ReturnToCaller in run) && (s.reporter == Reported <==> EndReports in run)
    && (!ReportsOpen(s) <==> CloseReports in run) && (!ResultsOpen(s) <==> CloseResults in run)
    && forall i: nat :: SendOnClosed(i) !in run
  }

  lemma TellsOneMore(s: Sender, s': Sender, run: seq<Step>, step: Step)
    requires Tells(s, run) && Marks(s, s', step)
    ensures Tells(s', run + [step])
  {
    assert forall x :: x in run + [step] <==> x in run || x == step;
  }

  lemma RunMarks(run: seq<Step>, step: Step)
    requires Exec(CALLED, run).Some? && Enabled(Exec(CALLED, run).value, step)
    ensures Marks(Exec(CALLED, run).value, Apply(Exec(CALLED, run).value, step), step)
  {
    RunKeepsInv(run);
    StepMarks(Exec(CALLED, run).value, step);
  }

  /** What has happened is what the run has done, and no run sends on a closed channel. */
  lemma {:induction false} StateTellsRun(run: seq<Step>)
    requires Exec(CALLED, run).Some?
    ensures Tells(Exec(CALLED, run).value, run)
  {
    if run != [] {
      var before, last := run[..|run| - 1], run[|run| - 1];
      StateTellsRun(before);
      RunMarks(before, last);
      TellsOneMore(Exec(CALLED, before).value, Exec(CALLED, run).value, before, last);
      assert run == before + [last];
    }
  }

  /** For any number of primary nodes and any schedule: nobody sends on a closed channel; the collector takes the
      zero value of the closed channel only after the caller gave up or the sender was stopped, and goes without an
      answer only then or if there is no node; it takes every answer at most once; and the reporter gets each answer
      at most once, and only after the collector took it. */
  lemma SendingIsSafe(run: seq<Step>)
    requires Exec(CALLED, run).Some?
    ensures var s := Exec(CALLED, run).value;
            && !s.panicked && (forall i: nat :: SendOnClosed(i) !in run)
            && (Zero in s.taken ==> Cancel in run || Stop in run)
            && (s.collector == GaveUp ==> Cancel in run || Stop in run || |s.nodes| == 0)
            && (forall j, k :: 0 <= j < k < |s.taken| && s.taken[j].From? ==> s.taken[j] != s.taken[k])
            && (forall j, k :: 0 <= j < k < |s.reports| ==> s.reports[j] != s.reports[k])
            && (forall i :: i in s.reports ==> From(i) in s.taken)
  {
    RunKeepsInv(run);
    StateTellsRun(run);
    var s := Exec(CALLED, run).value;
    forall i | i in s.reports
      ensures From(i) in s.taken
    {
      assert NodeFits(s, s.nodes[i]);
    }
  }

  /** Once it is done, the reporter of a sender that was not stopped has seen exactly the collected answers. */
  lemma ReporterSeesAllCollected(run: seq<Step>)
    requires Exec(CALLED, run).Some? && Exec(CALLED, run).value.reporter == Reported && !Exec(CALLED, run).value.stopped
    ensures var s := Exec(CALLED, run).value; forall i :: i in s.reports <==> From(i) in s.taken
  {
    RunKeepsInv(run);
    var s := Exec(CALLED, run).value;
    forall i: nat
      ensures i in s.reports <==> From(i) in s.taken
    {
      if i < |s.nodes| { assert NodeFits(s, s.nodes[i]); }
    }
  }

  function Arrivals(s: Sender, taken: seq<Taken>): seq<SendTxResult> {
    seq(|taken|, i requires 0 <= i < |taken| => ResultOf(s, taken[i]))
  }

  /** The collector stops at the first success. */
  lemma SuccessIsLast(s: Sender)
    requires CollectorFits(s) && s.collector == Aggregated
    ensures AnyOccurs(Arrivals(s, s.taken), SUCCESSFUL_CODES) <==>
              ResultOf(s, s.taken[|s.taken| - 1]).code in SUCCESSFUL_CODES
  {
    var list := Arrivals(s, s.taken);
    assert list[|list| - 1] == ResultOf(s, s.taken[|s.taken| - 1]);
  }

  lemma AnswerOfLiveCollector(s: Sender, r: Option<SendTxResult>, critical: Option<CriticalErr>)
    requires Inv(s) && s.collector == Aggregated && !s.cancelled && !s.stopped
    requires Aggregates(Arrivals(s, s.taken), r, critical)
    ensures r.Some? && exists i :: 0 <= i < |s.nodes| && s.nodes[i].delivered && r.value == s.nodes[i].result
    ensures Succeeds(r) <==> ResultOf(s, s.taken[|s.taken| - 1]).code in SUCCESSFUL_CODES
  {
    var list := Arrivals(s, s.taken);
    AggregateIsAnArrival(list, r, critical);
    var k :| 0 <= k < |list| && list[k] == r.value;
    var t := s.taken[k];
    assert t in s.taken && t != Zero;
    assert From(t.node) in s.taken && s.nodes[t.node].delivered;
    SuccessIsLast(s);
  }

  /** While the context is live, what the caller gets is the answer of a node, and it is a success exactly when the last
      answer taken is: nothing is waited for after a success. */
  lemma {:induction false} CallerGetsAnAnswer(run: seq<Step>, s: Sender, r: Option<SendTxResult>,
                                               critical: Option<CriticalErr>)
    requires Exec(CALLED, run) == Some(s) && s.collector == Aggregated && !s.cancelled && !s.stopped
    requires Aggregates(Arrivals(s, s.taken), r, critical)
    ensures |s.taken| > 0 && r.Some?
    ensures exists i :: 0 <= i < |s.nodes| && s.nodes[i].delivered && r.value == s.nodes[i].result
    ensures Succeeds(r) <==> ResultOf(s, s.taken[|s.taken| - 1]).code in SUCCESSFUL_CODES
  {
    RunKeepsInv(run);
    AnswerOfLiveCollector(s, r, critical);
  }

  // ----- the collector's loop -----

  /** What the select of collectTxResults receives; a timer only runs once there is a result. */
  datatype Event = GotResult(result: SendTxResult) | SoftTimeoutExpired | ContextDone

  datatype Collected = Answered(result: Option<SendTxResult>) | CtxErr

  function ResultsIn(events: seq<Event>): seq<SendTxResult> {
    if events == [] then []
    else if events[|events| - 1].GotResult? then ResultsIn(events[..|events| - 1]) + [events[|events| - 1].result]
    else ResultsIn(events[..|events| - 1])
  }

  /** The results so far call for more: no success, and no quorum. */
  predicate CallsForMore(n: nat, list: seq<SendTxResult>) {
    |list| < Required(n) && forall k :: 0 <= k < |list| ==> list[k].code !in SUCCESSFUL_CODES
  }

  lemma CallsAfter(n: nat, list: seq<SendTxResult>, result: SendTxResult)
    requires CallsForMore(n, list)
    ensures CallsForMore(n, list + [result]) <==> result.code !in SUCCESSFUL_CODES && |list| + 1 < Required(n)
  {
    assert (list + [result])[|list|] == result;
  }

  /** The loop of collectTxResults; `done` unless the context ended it. */
  method TakeResults(n: nat, events: seq<Event>) returns (done: bool, list: seq<SendTxResult>, used: nat)
    requires n > 0
    ensures used <= |events| && list == ResultsIn(events[..used])
    ensures list != [] ==> CallsForMore(n, list[..|list| - 1])
    ensures done <==> list != [] && (!CallsForMore(n, list) || events[used - 1] == SoftTimeoutExpired)
    ensures done ==> ContextDone !in events[..used]
    ensures !done ==> used == |events| || (used > 0 && events[used - 1] == ContextDone)
  {
    list, done, used := [], false, 0;
    QuorumIsWithinReach(n);
    while used < |events| && !done
      invariant used <= |events| && list == ResultsIn(events[..used]) && ContextDone !in events[..used]
      invariant list != [] ==> CallsForMore(n, list[..|list| - 1])
      invariant !done ==> CallsForMore(n, list)
      invariant done <==> list != [] && (!CallsForMore(n, list) || events[used - 1] == SoftTimeoutExpired)
      decreases |events| - used
    {
      var e := events[used];
      assert events[..used + 1][..used] == events[..used];
      used := used + 1;
      match e
      case ContextDone => return;
      case SoftTimeoutExpired => done := list != [];
      case GotResult(result) =>
        CallsAfter(n, list, result);
        assert (list + [result])[..|list|] == list;
        list := list + [result];
        done := result.code in SUCCESSFUL_CODES || |list| >= Required(n);
    }
  }

  /** collectTxResults: every result but the last left it calling for more; it answers exactly if the last one does
      not, or if the timer expired after it, and then with the aggregate of all results taken; the context's end is
      its only failure. */
  method CollectTxResults(n: nat, events: seq<Event>)
      returns (r: Collected, used: nat, ghost critical: Option<CriticalErr>)
    requires n > 0
    ensures used <= |events|
    ensures ResultsIn(events[..used]) != [] ==>
              CallsForMore(n, ResultsIn(events[..used])[..|ResultsIn(events[..used])| - 1])
    ensures r.Answered? <==>
              && ResultsIn(events[..used]) != []
              && (!CallsForMore(n, ResultsIn(events[..used])) || events[used - 1] == SoftTimeoutExpired)
    ensures r.Answered? ==> Aggregates(ResultsIn(events[..used]), r.result, critical) && ContextDone !in events[..used]
    ensures r == CtxErr ==> used == |events| || (used > 0 && events[used - 1] == ContextDone)
  {
    var done, list;
    done, list, used := TakeResults(n, events);
    if !done { return CtxErr, used, None; }
    var m := GroupByCode(list);
    var result, criticalErr := AggregateTxResults(m, list);
    return Answered(result), used, criticalErr;
  }

  /** The collector of the machine follows the loop: as long as it collects, what it has calls for more; when it is
      done, what it had before the last result did. */
  lemma {:induction false} CollectorFollowsLoop(run: seq<Step>, s: Sender)
    requires Exec(CALLED, run) == Some(s)
    ensures s.collector == Collecting ==> CallsForMore(|s.nodes|, Arrivals(s, s.taken))
    ensures s.collector == Aggregated ==>
              |s.taken| > 0 && CallsForMore(|s.nodes|, Arrivals(s, s.taken[..|s.taken| - 1]))
  {
    RunKeepsInv(run);
  }

  /** A result ends the collection exactly if the loop would end on it. */
  lemma TakeFollowsLoop(s: Sender, step: Step)
    requires Inv(s) && Enabled(s, step) && (step.Deliver? || step.TakeZero?)
    ensures var s' := Apply(s, step);
            s'.collector == (if CallsForMore(|s'.nodes|, Arrivals(s', s'.taken)) then Collecting else Aggregated)
  {
    var s' := Apply(s, step);
    forall k | 0 <= k < |s.taken|
      ensures ResultOf(s', s'.taken[k]) == ResultOf(s, s.taken[k])
    {
      ResultsStay(s, step, s.taken[k]);
    }
    assert Arrivals(s', s'.taken)[|s.taken|] == ResultOf(s', s'.taken[|s.taken|]);
  }

  // ----- with the context cancelled -----

  /** Nobody gives up during the run. */
  predicate NoGivingUp(run: seq<Step>) {
    Cancel !in run && Stop !in run
  }

  /** One more step of a run from s. */
  lemma Then(s: Sender, run: seq<Step>, now: Sender, step: Step) returns (run': seq<Step>, next: Sender)
    requires Exec(s, run) == Some(now) && Enabled(now, step) && NoGivingUp(run) && step != Cancel && step != Stop
    ensures next == Apply(now, step) && Exec(s, run') == Some(next) && NoGivingUp(run')
    ensures step in run' && forall x :: x in run ==> x in run'
  {
    run', next := run + [step], Apply(now, step);
    assert run'[..|run|] == run && run'[|run|] == step;
  }

  /** A collector whose context is done, before the channels are closed. */
  ghost predicate Abandoned(s: Sender) {
    Inv(s) && s.collector == Collecting && s.closer == AwaitingNodes && (s.cancelled || s.stopped)
  }

  ghost predicate SameButNode(s: Sender, s': Sender, i: nat) {
    |s'.nodes| == |s.nodes| && forall j :: 0 <= j < |s.nodes| && j != i ==> s'.nodes[j] == s.nodes[j]
  }

  lemma StepAbandoned(s: Sender, step: Step, i: nat)
    requires Abandoned(s) && Enabled(s, step) && IsOwnStep(step, i) && !step.Deliver?
    ensures Abandoned(Apply(s, step)) && SameButNode(s, Apply(s, step), i) && Apply(s, step).taken == s.taken
  {
    StepKeepsInv(s, step);
  }

  /** A goroutine that waits to send finishes. */
  lemma LastStepOf(s: Sender, i: nat) returns (step: Step)
    requires Abandoned(s) && i < |s.nodes| && (s.nodes[i].pc == SendingResult || s.nodes[i].pc == SendingReport)
    ensures Enabled(s, step) && IsOwnStep(step, i) && !step.Deliver? && Apply(s, step).nodes[i].pc == Finished
  {
    step := if s.nodes[i].pc == SendingResult then Abandon(i) else if s.stopped then DropReport(i) else Report(i);
  }

  /** At most two steps of its own finish goroutine i. */
  lemma FinishOne(s: Sender, i: nat) returns (steps: seq<Step>, next: Sender)
    requires Abandoned(s) && i < |s.nodes|
    ensures Exec(s, steps) == Some(next) && NoGivingUp(steps) && Abandoned(next)
    ensures SameButNode(s, next, i) && next.nodes[i].pc == Finished && next.taken == s.taken
  {
    steps, next := [], s;
    if next.nodes[i].pc == Broadcasting {
      var answer := Answer(i, SendTxResult("", Retryable, None));
      StepAbandoned(next, answer, i);
      steps, next := Then(s, steps, next, answer);
    }
    if next.nodes[i].pc != Finished {
      var step := LastStepOf(next, i);
      StepAbandoned(next, step, i);
      steps, next := Then(s, steps, next, step);
    }
  }

  lemma {:induction false} FinishAll(s: Sender, k: nat) returns (run: seq<Step>, next: Sender)
    requires Abandoned(s) && k <= |s.nodes|
    ensures Exec(s, run) == Some(next) && NoGivingUp(run) && Abandoned(next) && |next.nodes| == |s.nodes|
    ensures next.taken == s.taken && forall i :: 0 <= i < k ==> next.nodes[i].pc == Finished
  {
    if k == 0 {
      run, next := [], s;
    } else {
      var before, now := FinishAll(s, k - 1);
      var steps;
      steps, next := FinishOne(now, k - 1);
      ExecTwice(s, before, steps);
      run := before + steps;
    }
  }

  lemma CloseAndTake(s: Sender, run: seq<Step>, now: Sender) returns (run': seq<Step>, next: Sender)
    requires Exec(s, run) == Some(now) && NoGivingUp(run) && now.collector == Collecting && now.closer != NotStarted
    requires forall i :: 0 <= i < |now.nodes| ==> now.nodes[i].pc == Finished
    ensures Exec(s, run') == Some(next) && NoGivingUp(run') && TakeZero in run' && next.taken == now.taken + [Zero]
    ensures |now.taken| + 1 >= Required(|now.nodes|) ==> next.collector == Aggregated
  {
    run', next := run, now;
    if next.closer == AwaitingNodes { run', next := Then(s, run', next, CloseReports); }
    if next.closer == ReportsClosed { run', next := Then(s, run', next, CloseResults); }
    run', next := Then(s, run', next, TakeZero);
  }

  lemma LiveStep(s: Sender, step: Step)
    requires Inv(s) && Enabled(s, step) && !s.cancelled && !s.stopped && step != Cancel && step != Stop
    ensures step != TakeZero && Inv(Apply(s, step)) && !Apply(s, step).cancelled && !Apply(s, step).stopped
  {
    if step.TakeZero? { ClosedMeansCancelled(s); }
    StepKeepsInv(s, step);
  }

  lemma {:induction false} LiveNeverTakesZero(s: Sender, run: seq<Step>)
    requires Inv(s) && !s.cancelled && !s.stopped && NoGivingUp(run) && Exec(s, run).Some?
    ensures var s' := Exec(s, run).value; TakeZero !in run && Inv(s') && !s'.cancelled && !s'.stopped
  {
    if run != [] {
      var before, last := run[..|run| - 1], run[|run| - 1];
      assert run == before + [last];
      LiveNeverTakesZero(s, before);
      LiveStep(Exec(s, before).value, last);
    }
  }

  ghost predicate MayTakeZero(s: Sender) {
    exists run :: NoGivingUp(run) && TakeZero in run && Exec(s, run).Some?
  }

  /** From every state a collecting run reaches: the collector may go on to take the zero value for an answer if and
      only if the caller gave up or the sender was stopped already. */
  lemma MayTakeZeroIffCancelled(s: Sender)
    requires Inv(s) && s.collector == Collecting
    ensures MayTakeZero(s) <==> s.cancelled || s.stopped
  {
    if s.cancelled || s.stopped {
      var run, now := [], s;
      if s.closer == AwaitingNodes { run, now := FinishAll(s, |s.nodes|); }
      run, now := CloseAndTake(s, run, now);
      assert MayTakeZero(s);
    } else {
      forall run | NoGivingUp(run) && Exec(s, run).Some?
        ensures TakeZero !in run
      {
        LiveNeverTakesZero(s, run);
      }
    }
  }

  /** The aggregate of the zero value alone: an empty result, no error, and nothing to report. */
  lemma ZeroAloneAnswersNothing(s: Sender, r: Option<SendTxResult>, critical: Option<CriticalErr>)
    requires s.taken == [Zero] && Aggregates(Arrivals(s, s.taken), r, critical)
    ensures r == Some(NO_RESULT) && r.value.error == None && critical == None
  {
    var list := Arrivals(s, s.taken);
    assert list == [NO_RESULT];
    AggregateIsAnArrival(list, r, critical);
    assert !AnyOccurs(list, SUCCESSFUL_CODES);
    assert critical != Some(Contradiction) && critical != Some(NoResponse);
    match critical
    case None =>
    case Some(c) => match c { case Contradiction => case NoResponse => }
  }

  /** A call to one node whose caller gives up at once. */
  lemma CancelledCall() returns (run: seq<Step>, now: Sender)
    ensures Exec(CALLED, run) == Some(now) && Abandoned(now) && |now.nodes| == 1 && now.taken == []
  {
    var launched := Apply(CALLED, Launch);
    var collecting := Apply(launched, EndLaunch(false));
    run, now := [Launch, EndLaunch(false), Cancel], Apply(collecting, Cancel);
    assert run[..2][..1] == [Launch] && run[..2][1] == EndLaunch(false) && [Launch][..0] == [];
    assert Exec(CALLED, [Launch]) == Some(launched);
    assert Exec(CALLED, run[..2]) == Some(collecting);
    assert Exec(CALLED, run) == Some(now);
    RunKeepsInv(run);
  }

  /** One call to one node whose caller gives up: the collector reaches the quorum with the zero value alone, and
      the caller gets an empty result with no error. */
  lemma CancelledMayTakeZero()
    ensures exists run :: Exec(CALLED, run).Some? && EmptyAnswer(Exec(CALLED, run).value)
  {
    var start, cancelled := CancelledCall();
    var run, now := FinishAll(cancelled, 1);
    run, now := CloseAndTake(cancelled, run, now);
    ExecTwice(CALLED, start, run);
    assert [] + [Zero] == [Zero];
    forall r, critical | Aggregates(Arrivals(now, now.taken), r, critical)
      ensures r == Some(NO_RESULT) && critical == None
    {
      ZeroAloneAnswersNothing(now, r, critical);
    }
    assert EmptyAnswer(now);
  }

  /** The collector is done, and whatever it may answer is the empty result without an error. */
  ghost predicate EmptyAnswer(s: Sender) {
    && s.collector == Aggregated && s.taken == [Zero]
    && forall r, critical :: Aggregates(Arrivals(s, s.taken), r, critical) ==> r == Some(NO_RESULT) && critical == None
  }

  lemma {:induction false} ExecTwice(s: Sender, run: seq<Step>, more: seq<Step>)
    requires Exec(s, run).Some?
    ensures Exec(s, run + more) == Exec(Exec(s, run).value, more)
  {
    var whole := run + more;
    if more == [] {
      assert whole == run;
    } else {
      ExecTwice(s, run, more[..|more| - 1]);
      assert whole[..|whole| - 1] == run + more[..|more| - 1] && whole[|whole| - 1] == more[|more| - 1];
      SameLast(s, whole, Exec(s, run).value, more);
    }
  }

  lemma SameLast(s: Sender, run: seq<Step>, t: Sender, more: seq<Step>)
    requires run != [] && more != [] && run[|run| - 1] == more[|more| - 1]
    requires Exec(s, run[..|run| - 1]) == Exec(t, more[..|more| - 1])
    ensures Exec(s, run) == Exec(t, more)
  {
  }
}
