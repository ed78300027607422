/** The lifecycle of one primary node (multinode/node.go, node_fsm.go, node_lifecycle.go): goroutines that hand
    control to each other while Close may run at any moment.  A step is one access to the node's state under its
    lock, or the outcome of one wait or RPC call; what the RPC answers is left open. */
module NodeLifecycle {
  import opened Wrappers

  datatype NodeState =
    | Undialed | Dialed | InvalidChainID | Alive | Unreachable | OutOfSync | Unusable | Closed | Syncing
    | FinalizedBlockOutOfSync | FinalizedStateNotAvailable
    | InvalidState          // nodeStateLen, returned for a node that is closed already

  datatype Config = Config(verifyChainID: bool, nodeIsSyncingEnabled: bool)

  /** The transitionToXXX methods. */
  datatype Transition =
    | ToAlive | ToInSync | ToOutOfSync | ToUnreachable | ToInvalidChainID | ToSyncing | ToFinalizedStateNotAvailable

  datatype Loop =
    | AliveLoop | OutOfSyncLoop | UnreachableLoop | InvalidChainIDLoop | SyncingLoop
    | FinalizedStateNotAvailableLoop

  /** The state a loop runs for. */
  function Home(loop: Loop): NodeState {
    match loop
    case AliveLoop => Alive
    case OutOfSyncLoop => OutOfSync
    case UnreachableLoop => Unreachable
    case InvalidChainIDLoop => InvalidChainID
    case SyncingLoop => Syncing
    case FinalizedStateNotAvailableLoop => FinalizedStateNotAvailable
  }

  /** The loop a transition starts. */
  function Successor(t: Transition): Loop {
    match t
    case ToAlive => AliveLoop
    case ToInSync => AliveLoop
    case ToOutOfSync => OutOfSyncLoop
    case ToUnreachable => UnreachableLoop
    case ToInvalidChainID => InvalidChainIDLoop
    case ToSyncing => SyncingLoop
    case ToFinalizedStateNotAvailable => FinalizedStateNotAvailableLoop
  }

  /** The states a transition accepts; any other but Closed makes it panic. */
  predicate Allowed(t: Transition, from: NodeState, cfg: Config) {
    match t
    case ToAlive => from == Dialed || from == InvalidChainID || from == Syncing || from == FinalizedStateNotAvailable
    case ToInSync => from == OutOfSync || from == Syncing
    case ToOutOfSync => from == Alive || from == OutOfSync
    case ToUnreachable =>
      || from == Undialed || from == Dialed || from == Alive || from == OutOfSync || from == InvalidChainID
      || from == Syncing || from == FinalizedStateNotAvailable
    case ToInvalidChainID =>
      from == Dialed || from == OutOfSync || from == Syncing || from == FinalizedStateNotAvailable
    case ToSyncing =>
      && (from == Dialed || from == OutOfSync || from == InvalidChainID || from == FinalizedStateNotAvailable)
      && cfg.nodeIsSyncingEnabled
    case ToFinalizedStateNotAvailable => from == Alive
  }

  /** The transition declareState picks, if it has one. */
  function DeclareFor(s: NodeState): Option<Transition> {
    match s
    case InvalidChainID => Some(ToInvalidChainID)
    case Unreachable => Some(ToUnreachable)
    case Syncing => Some(ToSyncing)
    case Alive => Some(ToAlive)
    case FinalizedStateNotAvailable => Some(ToFinalizedStateNotAvailable)
    case _ => None
  }

  /** Who called verifyConn, and so what its result is for. */
  datatype Caller = Start | Redial | Create(loop: Loop) | Recheck

  datatype Pc =
    | Starting                                  // start, before its state check
    | StartDialing
    | SettingDialed(caller: Caller)             // before the raw setState(Dialed)
    | Dialing(loop: Loop)                       // createVerifiedConn
    | VerifyingChainID(caller: Caller)
    | VerifyingSync(caller: Caller)
    | Verified(caller: Caller, result: NodeState)
    | Probing                                   // probeUntilStable
    | SettingUnreachable                        // before the raw setState(Unreachable)
    | DeclaringState(result: NodeState)         // declareState, before its check
    | Declaring(t: Transition)                  // before the locked part of the transition
    | Entering(loop: Loop)                      // spawned, before the sanity check
    | Waiting(loop: Loop)
    | Exited
    | PanickedAtStart
    | Panicked

  datatype Node = Node(state: NodeState, stopped: bool, goroutines: seq<Pc>)

  /** First stop of a loop after its sanity check. */
  function Begin(loop: Loop): Pc {
    if loop == AliveLoop || loop == UnreachableLoop then Waiting(loop) else Dialing(loop)
  }

  /** What a caller does with the result of verifyConn. */
  predicate Resumes(caller: Caller, result: NodeState, pc': Pc) {
    match caller
    case Start => pc' == DeclaringState(result)
    case Redial =>
      if result == Unreachable then pc' == SettingUnreachable
      else if result == Alive then pc' == Probing
      else pc' == DeclaringState(result)
    case Create(loop) =>
      (match loop
       case OutOfSyncLoop => pc' == if result == Alive then Waiting(loop) else DeclaringState(result)
       case FinalizedStateNotAvailableLoop =>
         if result == Alive then pc' == Waiting(loop) || pc' == Declaring(ToAlive) else pc' == DeclaringState(result)
       case _ => pc' == if result == Home(loop) then Waiting(loop) else DeclaringState(result))
    case Recheck => pc' == if result == InvalidChainID then Waiting(InvalidChainIDLoop) else DeclaringState(result)
  }

  /** How a loop goes on from its wait. */
  predicate LoopMoves(loop: Loop, pc': Pc) {
    || pc' == Waiting(loop)
    || match loop
       case AliveLoop =>
         || pc' == Declaring(ToUnreachable) || pc' == Declaring(ToOutOfSync)
         || pc' == Declaring(ToFinalizedStateNotAvailable)
       case OutOfSyncLoop =>
         pc' == Declaring(ToUnreachable) || pc' == Declaring(ToInSync) || pc' == Declaring(ToOutOfSync)
       case UnreachableLoop => pc' == SettingDialed(Redial)
       case InvalidChainIDLoop => pc' == VerifyingChainID(Recheck)
       case SyncingLoop => pc' == Declaring(ToUnreachable) || pc' == Declaring(ToAlive)
       case FinalizedStateNotAvailableLoop => pc' == Declaring(ToUnreachable) || pc' == Declaring(ToAlive)
  }

  /** The states verifyChainID accepts; any other but Closed makes it panic. */
  predicate CanBeVerified(s: NodeState) {
    s == Dialed || s == OutOfSync || s == InvalidChainID || s == Syncing || s == FinalizedStateNotAvailable
  }

  /** One move of one goroutine: what it reads, writes, goes to and spawns. */
  predicate Moves(cfg: Config, n: Node, pc: Pc, state': NodeState, pc': Pc, spawned: Option<Loop>) {
    match pc
    case Starting =>
      && state' == n.state && spawned == None
      && pc' == if n.state == Undialed then StartDialing else PanickedAtStart
    case StartDialing =>
      && state' == n.state && spawned == None
      && (pc' == Declaring(ToUnreachable) || pc' == SettingDialed(Start))
    case SettingDialed(caller) => state' == Dialed && spawned == None && pc' == VerifyingChainID(caller)
    case Dialing(loop) =>
      && state' == n.state && spawned == None
      && (pc' == Verified(Create(loop), Unreachable) || pc' == VerifyingChainID(Create(loop)))
    case VerifyingChainID(caller) =>
      && state' == n.state && spawned == None
      && (if !cfg.verifyChainID then pc' == VerifyingSync(caller)
          else if n.state == Closed then pc' == Verified(caller, InvalidState)
          else if CanBeVerified(n.state)
          then pc' in {Verified(caller, Unreachable), Verified(caller, InvalidChainID), VerifyingSync(caller)}
          else pc' == Panicked)
    case VerifyingSync(caller) =>
      && state' == n.state && spawned == None
      && (pc' == Verified(caller, Alive)
          || (cfg.nodeIsSyncingEnabled && (pc' == Verified(caller, Unreachable) || pc' == Verified(caller, Syncing))))
    case Verified(caller, result) => state' == n.state && spawned == None && Resumes(caller, result, pc')
    case Probing => state' == n.state && spawned == None && (pc' == SettingUnreachable || pc' == DeclaringState(Alive))
    case SettingUnreachable => state' == Unreachable && spawned == None && pc' == Waiting(UnreachableLoop)
    case DeclaringState(result) =>
      && state' == n.state && spawned == None
      && pc' == if n.state == Closed then Exited
                else if DeclareFor(result).Some? then Declaring(DeclareFor(result).value)
                else Panicked
    case Declaring(t) =>
      if n.state == Closed then state' == n.state && spawned == None && pc' == Exited
      else if Allowed(t, n.state, cfg) then
        state' == Home(Successor(t)) && spawned == Some(Successor(t)) && pc' == Exited
      else state' == n.state && spawned == None && pc' == Panicked
    case Entering(loop) =>
      && state' == n.state && spawned == None
      && pc' == if n.state == Home(loop) then Begin(loop) else if n.state == Closed then Exited else Panicked
    case Waiting(loop) => state' == n.state && spawned == None && ((n.stopped && pc' == Exited) || LoopMoves(loop, pc'))
    case _ => false
  }

  datatype Step =
    | Move(g: nat, state: NodeState, pc: Pc, spawned: Option<Loop>)
    | Close

  predicate Enabled(cfg: Config, n: Node, s: Step) {
    match s
    case Move(g, state', pc', spawned) => g < |n.goroutines| && Moves(cfg, n, n.goroutines[g], state', pc', spawned)
    case Close => !n.stopped
  }

  function Apply(cfg: Config, n: Node, s: Step): Node
    requires Enabled(cfg, n, s)
  {
    match s
    case Move(g, state', pc', spawned) =>
      var moved := n.goroutines[g := pc'];
      Node(state', n.stopped, if spawned.Some? then moved + [Entering(spawned.value)] else moved)
    case Close => n.(state := Closed, stopped := true)
  }

  function Exec(cfg: Config, n: Node, run: seq<Step>): Option<Node> {
    if run == [] then Some(n)
    else
      var before := Exec(cfg, n, run[..|run| - 1]);
      if before.Some? && Enabled(cfg, before.value, run[|run| - 1])
      then Some(Apply(cfg, before.value, run[|run| - 1]))
      else None
  }

  /** A node whose Start has just been called. */
  const STARTED := Node(Undialed, false, [Starting])

  // ----- what holds in every run -----

  predicate HoldsControl(pc: Pc) {
    !pc.Exited? && !pc.PanickedAtStart? && !pc.Panicked?
  }

  ghost predicate OneInControl(n: Node) {
    forall i, j :: 0 <= i < |n.goroutines| && 0 <= j < |n.goroutines| ==>
      HoldsControl(n.goroutines[i]) && HoldsControl(n.goroutines[j]) ==> i == j
  }

  ghost predicate SomeoneInControl(n: Node) {
    exists i :: 0 <= i < |n.goroutines| && HoldsControl(n.goroutines[i])
  }

  /** The states a goroutine may find at each point, besides Closed. */
  predicate Expects(cfg: Config, pc: Pc, s: NodeState) {
    match pc
    case Starting => s == Undialed
    case StartDialing => s == Undialed
    case SettingDialed(caller) => s == if caller == Start then Undialed else Unreachable
    case Dialing(loop) => s == Home(loop)
    case VerifyingChainID(caller) => ExpectsFor(caller, s)
    case VerifyingSync(caller) => ExpectsFor(caller, s)
    case Verified(caller, result) => ExpectsFor(caller, s) && result != InvalidState
    case Probing => s == Dialed
    case SettingUnreachable => s == Dialed
    case DeclaringState(result) => DeclareFor(result).Some? && Allowed(DeclareFor(result).value, s, cfg)
    case Declaring(t) => Allowed(t, s, cfg)
    case Entering(loop) => s == Home(loop)
    case Waiting(loop) => s == Home(loop)
    case _ => true
  }

  predicate ExpectsFor(caller: Caller, s: NodeState) {
    match caller
    case Start => s == Dialed
    case Redial => s == Dialed
    case Create(loop) => s == Home(loop)
    case Recheck => s == InvalidChainID
  }

  /** Callers and results that occur at all. */
  predicate Sensible(cfg: Config, pc: Pc) {
    match pc
    case SettingDialed(caller) => caller == Start || caller == Redial
    case Dialing(loop) => loop != AliveLoop && loop != UnreachableLoop
    case VerifyingChainID(caller) => SensibleCaller(caller)
    case VerifyingSync(caller) => SensibleCaller(caller)
    case Verified(caller, result) =>
      && SensibleCaller(caller)
      && (result == Unreachable || result == InvalidChainID || result == Alive || result == InvalidState
            || (result == Syncing && cfg.nodeIsSyncingEnabled))
    case _ => true
  }

  predicate SensibleCaller(caller: Caller) {
    caller.Create? ==> caller.loop != AliveLoop && caller.loop != UnreachableLoop
  }

  ghost predicate Inv(cfg: Config, n: Node) {
    && OneInControl(n)
    && (!n.stopped ==> n.state != Closed && SomeoneInControl(n))
    && (forall i :: 0 <= i < |n.goroutines| ==>
          && n.goroutines[i] != Panicked
          && Sensible(cfg, n.goroutines[i])
          && (n.goroutines[i] == PanickedAtStart ==> n.stopped)
          && (HoldsControl(n.goroutines[i]) ==> n.state == Closed || Expects(cfg, n.goroutines[i], n.state)))
  }

  /** The next point of the goroutine that moved, against the state it leaves behind. */
  predicate Fits(cfg: Config, n: Node, state': NodeState, pc': Pc, spawned: Option<Loop>) {
    && pc' != Panicked && Sensible(cfg, pc')
    && (pc' == PanickedAtStart ==> n.stopped)
    && (HoldsControl(pc') ==> spawned == None && (state' == Closed || Expects(cfg, pc', state')))
    && (spawned.Some? ==> pc' == Exited && state' == Home(spawned.value))
    && (!n.stopped ==> state' != Closed && (HoldsControl(pc') || spawned.Some?))
  }

  predicate Fitting(cfg: Config, n: Node, pc: Pc) {
    && HoldsControl(pc) && Sensible(cfg, pc)
    && (n.state == Closed || Expects(cfg, pc, n.state))
    && (!n.stopped ==> n.state != Closed)
  }

  lemma ResumeFits(cfg: Config, n: Node, pc: Pc, pc': Pc)
    requires pc.Verified? && Fitting(cfg, n, pc) && Resumes(pc.caller, pc.result, pc')
    ensures Fits(cfg, n, n.state, pc', None)
  {
    match pc.caller
    case Start =>
    case Redial =>
    case Create(loop) =>
    case Recheck =>
  }

  lemma WaitFits(cfg: Config, n: Node, loop: Loop, pc': Pc)
    requires Fitting(cfg, n, Waiting(loop)) && LoopMoves(loop, pc')
    ensures Fits(cfg, n, n.state, pc', None)
  {
    if n.state != Closed {
      assert n.state == Home(loop);
      DeclaringFits(cfg, loop, pc');
    }
  }

  /** A loop only asks for transitions its own state allows. */
  lemma DeclaringFits(cfg: Config, loop: Loop, pc': Pc)
    requires LoopMoves(loop, pc')
    ensures HoldsControl(pc') && Sensible(cfg, pc') && Expects(cfg, pc', Home(loop))
  {
  }

  lemma VerifyFits(cfg: Config, n: Node, pc: Pc, state': NodeState, pc': Pc, spawned: Option<Loop>)
    requires pc.SettingDialed? || pc.Dialing? || pc.VerifyingChainID? || pc.VerifyingSync?
    requires Moves(cfg, n, pc, state', pc', spawned) && Fitting(cfg, n, pc)
    ensures Fits(cfg, n, state', pc', spawned)
  {
  }

  lemma MoveFits(cfg: Config, n: Node, pc: Pc, state': NodeState, pc': Pc, spawned: Option<Loop>)
    requires Moves(cfg, n, pc, state', pc', spawned) && Fitting(cfg, n, pc)
    ensures Fits(cfg, n, state', pc', spawned)
  {
    match pc
    case Verified(_, _) => ResumeFits(cfg, n, pc, pc');
    case Waiting(loop) => if LoopMoves(loop, pc') { WaitFits(cfg, n, loop, pc'); }
    case SettingDialed(_) => VerifyFits(cfg, n, pc, state', pc', spawned);
    case Dialing(_) => VerifyFits(cfg, n, pc, state', pc', spawned);
    case VerifyingChainID(_) => VerifyFits(cfg, n, pc, state', pc', spawned);
    case VerifyingSync(_) => VerifyFits(cfg, n, pc, state', pc', spawned);
    case _ =>
  }

  lemma StepKeepsInv(cfg: Config, n: Node, s: Step)
    requires Inv(cfg, n) && Enabled(cfg, n, s)
    ensures Inv(cfg, Apply(cfg, n, s))
  {
    match s
    case Close =>
      var n' := Apply(cfg, n, s);
      assert n'.goroutines == n.goroutines;
    case Move(g, state', pc', spawned) =>
      MoveFits(cfg, n, n.goroutines[g], state', pc', spawned);
      var n' := Apply(cfg, n, s);
      if !n.stopped {
        assert HoldsControl(n'.goroutines[if HoldsControl(pc') then g else |n.goroutines|]);
      }
  }

  lemma {:induction false} RunKeepsInv(cfg: Config, run: seq<Step>)
    requires Exec(cfg, STARTED, run).Some?
    ensures Inv(cfg, Exec(cfg, STARTED, run).value)
  {
    if run == [] {
      assert HoldsControl(STARTED.goroutines[0]);
    } else {
      RunKeepsInv(cfg, run[..|run| - 1]);
      StepKeepsInv(cfg, Exec(cfg, STARTED, run[..|run| - 1]).value, run[|run| - 1]);
    }
  }

  /** In every interleaving with one Close: at most one goroutine holds lifecycle control, exactly one until Close;
      a loop's sanity check finds its own state or Closed; no transition, verification or state declaration panics;
      and the check in start panics only if Close was there first. */
  lemma LifecycleIsSafe(cfg: Config, run: seq<Step>)
    requires Exec(cfg, STARTED, run).Some?
    ensures var n := Exec(cfg, STARTED, run).value;
            && OneInControl(n)
            && (!n.stopped ==> SomeoneInControl(n) && n.state != Closed)
            && (forall i :: 0 <= i < |n.goroutines| ==> n.goroutines[i] != Panicked)
            && (forall i :: 0 <= i < |n.goroutines| && n.goroutines[i].Entering? ==>
                  n.state == Closed || n.state == Home(n.goroutines[i].loop))
            && (PanickedAtStart in n.goroutines ==> Close in run)
  {
    RunKeepsInv(cfg, run);
    StoppedByClose(cfg, run);
  }

  lemma {:induction false} StoppedByClose(cfg: Config, run: seq<Step>)
    requires Exec(cfg, STARTED, run).Some?
    ensures Exec(cfg, STARTED, run).value.stopped <==> Close in run
  {
    if run != [] {
      StoppedByClose(cfg, run[..|run| - 1]);
      assert run == run[..|run| - 1] + [run[|run| - 1]];
    }
  }

  /** start panics exactly in the runs where Close came before its check. */
  lemma {:induction false} StartPanicsIffClosedFirst(cfg: Config, run: seq<Step>)
    requires |run| >= 2 && Exec(cfg, STARTED, run).Some?
    ensures PanickedAtStart in Exec(cfg, STARTED, run).value.goroutines <==> run[0] == Close
  {
    var before := run[..|run| - 1];
    if run[0] == Close {
      if |run| == 2 {
        assert before == [Close] && before[..0] == [];
        assert Exec(cfg, STARTED, before).value == Node(Closed, true, [Starting]);
        assert Exec(cfg, STARTED, run).value.goroutines[0] == PanickedAtStart;
      } else {
        StartPanicsIffClosedFirst(cfg, before);
        PanickedStays(cfg, Exec(cfg, STARTED, before).value, run[|run| - 1]);
      }
    } else {
      StartedStays(cfg, run);
    }
  }

  lemma PanickedStays(cfg: Config, n: Node, s: Step)
    requires PanickedAtStart in n.goroutines && Enabled(cfg, n, s)
    ensures PanickedAtStart in Apply(cfg, n, s).goroutines
  {
    var i :| 0 <= i < |n.goroutines| && n.goroutines[i] == PanickedAtStart;
    assert Apply(cfg, n, s).goroutines[i] == PanickedAtStart;
  }

  lemma {:induction false} StartedStays(cfg: Config, run: seq<Step>)
    requires |run| >= 1 && run[0] != Close && Exec(cfg, STARTED, run).Some?
    ensures forall pc :: pc in Exec(cfg, STARTED, run).value.goroutines ==> pc != Starting && pc != PanickedAtStart
  {
    var before := run[..|run| - 1];
    if |run| == 1 {
      assert before == [];
      assert Exec(cfg, STARTED, run).value.goroutines == [StartDialing];
    } else {
      StartedStays(cfg, before);
      PastStart(cfg, Exec(cfg, STARTED, before).value, run[|run| - 1]);
    }
  }

  lemma PastStart(cfg: Config, n: Node, s: Step)
    requires Enabled(cfg, n, s)
    requires forall pc :: pc in n.goroutines ==> pc != Starting && pc != PanickedAtStart
    ensures forall pc :: pc in Apply(cfg, n, s).goroutines ==> pc != Starting && pc != PanickedAtStart
  {
    if s.Move? {
      assert n.goroutines[s.g] in n.goroutines;
      NeverRestarts(cfg, n, n.goroutines[s.g], s.state, s.pc, s.spawned);
      var n' := Apply(cfg, n, s);
      forall pc | pc in n'.goroutines
        ensures pc != Starting && pc != PanickedAtStart
      {
        var i :| 0 <= i < |n'.goroutines| && n'.goroutines[i] == pc;
        if i < |n.goroutines| && i != s.g { assert n.goroutines[i] in n.goroutines; }
      }
    }
  }

  lemma NeverRestarts(cfg: Config, n: Node, pc: Pc, state': NodeState, pc': Pc, spawned: Option<Loop>)
    requires Moves(cfg, n, pc, state', pc', spawned) && pc != Starting
    ensures pc' != Starting && pc' != PanickedAtStart
  {
  }

  /** One silent move of a node with a single goroutine. */
  lemma Then(cfg: Config, run: seq<Step>, n: Node, state': NodeState, pc': Pc) returns (run': seq<Step>)
    requires Exec(cfg, STARTED, run) == Some(n) && |n.goroutines| == 1
    requires Moves(cfg, n, n.goroutines[0], state', pc', None)
    ensures Exec(cfg, STARTED, run') == Some(Node(state', n.stopped, [pc']))
    ensures Close in run ==> Close in run'
  {
    run' := run + [Move(0, state', pc', None)];
    assert run'[..|run|] == run;
    assert n.goroutines[0 := pc'] == [pc'];
  }

  /** Close lands between the dial in start and the raw setState after it. */
  lemma ClosedWhileDialing(cfg: Config) returns (run: seq<Step>)
    ensures Exec(cfg, STARTED, run) == Some(Node(Dialed, true, [VerifyingChainID(Start)])) && Close in run
  {
    var r := Then(cfg, [], STARTED, Undialed, StartDialing);
    r := Then(cfg, r, Node(Undialed, false, [StartDialing]), Undialed, SettingDialed(Start));
    var closed := r + [Close];
    assert closed[..|r|] == r && closed[|r|] == Close;
    run := Then(cfg, closed, Node(Closed, true, [SettingDialed(Start)]), Dialed, VerifyingChainID(Start));
  }

  /** What the node says passes verification. */
  lemma ClosedWhileVerifying(cfg: Config) returns (run: seq<Step>)
    ensures Exec(cfg, STARTED, run) == Some(Node(Dialed, true, [Verified(Start, Alive)])) && Close in run
  {
    var r := ClosedWhileDialing(cfg);
    r := Then(cfg, r, Node(Dialed, true, [VerifyingChainID(Start)]), Dialed, VerifyingSync(Start));
    run := Then(cfg, r, Node(Dialed, true, [VerifyingSync(Start)]), Dialed, Verified(Start, Alive));
  }

  lemma ClosedWhileDeclaring(cfg: Config) returns (run: seq<Step>)
    ensures Exec(cfg, STARTED, run) == Some(Node(Dialed, true, [Declaring(ToAlive)])) && Close in run
  {
    var r := ClosedWhileVerifying(cfg);
    r := Then(cfg, r, Node(Dialed, true, [Verified(Start, Alive)]), Dialed, DeclaringState(Alive));
    run := Then(cfg, r, Node(Dialed, true, [DeclaringState(Alive)]), Dialed, Declaring(ToAlive));
  }

  /** Closed is not absorbing: the raw setState after a dial overwrites it, and the node may be declared alive. */
  lemma ClosedMayBecomeAlive(cfg: Config)
    ensures exists run :: Close in run && Exec(cfg, STARTED, run).Some? && Exec(cfg, STARTED, run).value.state == Alive
  {
    var r := ClosedWhileDeclaring(cfg);
    var declared := r + [Move(0, Alive, Exited, Some(AliveLoop))];
    assert declared[..|r|] == r && declared[|r|] == Move(0, Alive, Exited, Some(AliveLoop));
    assert Close in declared && Exec(cfg, STARTED, declared).Some? && Exec(cfg, STARTED, declared).value.state == Alive;
  }

  // ----- where the transitions lead -----

  /** Each completed transition, with the state it leaves and the loop it starts. */
  lemma TransitionsLead(cfg: Config, n: Node, t: Transition, state': NodeState, pc': Pc, loop: Loop)
    requires Moves(cfg, n, Declaring(t), state', pc', Some(loop))
    ensures t == ToAlive || t == ToInSync ==> state' == Alive && loop == AliveLoop
    ensures t == ToOutOfSync ==> state' == OutOfSync && loop == OutOfSyncLoop
    ensures t == ToUnreachable ==> state' == Unreachable && loop == UnreachableLoop
    ensures t == ToInvalidChainID ==> state' == InvalidChainID && loop == InvalidChainIDLoop
    ensures t == ToSyncing ==> state' == Syncing && loop == SyncingLoop && cfg.nodeIsSyncingEnabled
    ensures t == ToFinalizedStateNotAvailable ==>
              state' == FinalizedStateNotAvailable && loop == FinalizedStateNotAvailableLoop
    ensures pc' == Exited && n.state != Closed
  {
  }

  /** The transitions a node may make, state by state. */
  function Accepted(s: NodeState): set<Transition> {
    match s
    case Undialed => {ToUnreachable}
    case Dialed => {ToAlive, ToUnreachable, ToInvalidChainID, ToSyncing}
    case Alive => {ToOutOfSync, ToUnreachable, ToFinalizedStateNotAvailable}
    case OutOfSync => {ToInSync, ToOutOfSync, ToUnreachable, ToInvalidChainID, ToSyncing}
    case InvalidChainID => {ToAlive, ToUnreachable, ToSyncing}
    case Syncing => {ToAlive, ToInSync, ToUnreachable, ToInvalidChainID}
    case FinalizedStateNotAvailable => {ToAlive, ToUnreachable, ToInvalidChainID, ToSyncing}
    case _ => {}
  }

  /** A transition is made if and only if the node's state accepts it, one to Syncing only where that is enabled; it is
      dropped on a closed node and panics on any other. */
  lemma TransitionIsMadeIff(cfg: Config, n: Node, t: Transition, state': NodeState, pc': Pc, spawned: Option<Loop>)
    requires Moves(cfg, n, Declaring(t), state', pc', spawned)
    ensures spawned.Some? <==> t in Accepted(n.state) && (t == ToSyncing ==> cfg.nodeIsSyncingEnabled)
    ensures pc' == if spawned.Some? || n.state == Closed then Exited else Panicked
  {
  }

  /** What declareState makes of each state; it panics on all others. */
  lemma DeclarationsLead(cfg: Config, n: Node, r: NodeState, state': NodeState, pc': Pc)
    requires n.state != Closed && Moves(cfg, n, DeclaringState(r), state', pc', None)
    ensures state' == n.state
    ensures pc' == match r
                   case Alive => Declaring(ToAlive)
                   case Unreachable => Declaring(ToUnreachable)
                   case InvalidChainID => Declaring(ToInvalidChainID)
                   case Syncing => Declaring(ToSyncing)
                   case FinalizedStateNotAvailable => Declaring(ToFinalizedStateNotAvailable)
                   case _ => Panicked
  {
  }

  /** The state changes there are: what each state may be followed by. */
  function Followers(s: NodeState): set<NodeState> {
    match s
    case Undialed => {Dialed, Unreachable, Closed}
    case Dialed => {Alive, Unreachable, InvalidChainID, Syncing, Closed}
    case Alive => {OutOfSync, Unreachable, FinalizedStateNotAvailable, Closed}
    case OutOfSync => {Alive, OutOfSync, Unreachable, InvalidChainID, Syncing, Closed}
    case Unreachable => {Dialed, Closed}
    case InvalidChainID => {Alive, Unreachable, Syncing, Closed}
    case Syncing => {Alive, Unreachable, InvalidChainID, Closed}
    case FinalizedStateNotAvailable => {Alive, Unreachable, InvalidChainID, Syncing, Closed}
    case Closed => {Dialed, Unreachable}
    case _ => {}
  }

  lemma MoveFollows(cfg: Config, n: Node, pc: Pc, state': NodeState, pc': Pc, spawned: Option<Loop>)
    requires Moves(cfg, n, pc, state', pc', spawned) && Fitting(cfg, n, pc)
    ensures state' == n.state || state' in Followers(n.state)
  {
    match pc
    case Declaring(t) => if spawned.Some? { TransitionsLead(cfg, n, t, state', pc', spawned.value); }
    case _ =>
  }

  /** In every run each change of the node's state is one of these: a node goes from Syncing to OutOfSync in none. */
  lemma StateChangesAreKnown(cfg: Config, run: seq<Step>, s: Step)
    requires Exec(cfg, STARTED, run).Some? && Enabled(cfg, Exec(cfg, STARTED, run).value, s)
    ensures var n := Exec(cfg, STARTED, run).value;
            Apply(cfg, n, s).state == n.state || Apply(cfg, n, s).state in Followers(n.state)
  {
    RunKeepsInv(cfg, run);
    var n := Exec(cfg, STARTED, run).value;
    if s.Move? {
      MoveFollows(cfg, n, n.goroutines[s.g], s.state, s.pc, s.spawned);
    } else {
      assert n.state != Closed;
      assert Closed in Followers(n.state) || n.state == Unusable || n.state == FinalizedBlockOutOfSync
          || n.state == InvalidState;
    }
  }

  // ----- what a verification leads to -----

  /** On the way from the result of a verification to the transition that declares it. */
  predicate HandsOver(pc: Pc, r: NodeState) {
    match pc
    case Verified(_, result) => result == r
    case Probing => r == Alive
    case DeclaringState(result) => result == r
    case Declaring(t) =>
      (match r
       case Alive => t == ToAlive
       case Unreachable => t == ToUnreachable
       case InvalidChainID => t == ToInvalidChainID
       case Syncing => t == ToSyncing
       case FinalizedStateNotAvailable => t == ToFinalizedStateNotAvailable
       case _ => false)
    case _ => false
  }

  /** The end of that way: the loop goes on waiting, or the node is in the state found, with a loop started for it, or
      it was closed meanwhile. */
  predicate EndsHandOver(state': NodeState, pc': Pc, spawned: Option<Loop>, r: NodeState) {
    || pc'.Waiting? || pc' == SettingUnreachable
    || (pc' == Exited && (if spawned.Some? then state' == r else state' == Closed))
  }

  lemma MoveHandsOver(cfg: Config, n: Node, pc: Pc, state': NodeState, pc': Pc, spawned: Option<Loop>, r: NodeState)
    requires Moves(cfg, n, pc, state', pc', spawned) && pc' != Panicked && HandsOver(pc, r)
    ensures HandsOver(pc', r) || EndsHandOver(state', pc', spawned, r)
  {
    match pc
    case Declaring(t) => if spawned.Some? { TransitionsLead(cfg, n, t, state', pc', spawned.value); }
    case _ =>
  }

  /** In every run, once a verification in goroutine g has found r, that goroutine stays on its way to declare r until
      it goes back to waiting, or leaves the node in state r with a loop started for it, or finds it closed. */
  lemma {:induction false} VerifiedIsDeclared(cfg: Config, n: Node, run: seq<Step>, g: nat, r: NodeState)
    requires Inv(cfg, n) && g < |n.goroutines| && HandsOver(n.goroutines[g], r) && Exec(cfg, n, run).Some?
    ensures Inv(cfg, Exec(cfg, n, run).value) && g < |Exec(cfg, n, run).value.goroutines|
    ensures || HandsOver(Exec(cfg, n, run).value.goroutines[g], r)
            || exists k :: 0 <= k < |run| && run[k].Move? && run[k].g == g
                           && EndsHandOver(run[k].state, run[k].pc, run[k].spawned, r)
  {
    if run != [] {
      var before, s := run[..|run| - 1], run[|run| - 1];
      VerifiedIsDeclared(cfg, n, before, g, r);
      var m := Exec(cfg, n, before).value;
      StepKeepsInv(cfg, m, s);
      if HandsOver(m.goroutines[g], r) {
        if s.Move? && s.g == g {
          assert Apply(cfg, m, s).goroutines[g] == s.pc;
          MoveHandsOver(cfg, m, m.goroutines[g], s.state, s.pc, s.spawned, r);
        }
      } else {
        var k :| 0 <= k < |before| && before[k].Move? && before[k].g == g
                 && EndsHandOver(before[k].state, before[k].pc, before[k].spawned, r);
        assert run[k] == before[k];
      }
    }
  }

  // ----- when Closed is for good -----

  /** Points from which a goroutine may still run into a raw setState. */
  predicate MayReopen(cfg: Config, pc: Pc) {
    match pc
    case StartDialing => true
    case SettingDialed(_) => true
    case VerifyingChainID(caller) => caller == Redial && !cfg.verifyChainID
    case VerifyingSync(caller) => caller == Redial
    case Verified(caller, result) => caller == Redial && (result == Alive || result == Unreachable)
    case Probing => true
    case SettingUnreachable => true
    case Waiting(loop) => loop == UnreachableLoop
    case _ => false
  }

  ghost predicate NobodyMayReopen(cfg: Config, n: Node) {
    forall pc :: pc in n.goroutines ==> !MayReopen(cfg, pc)
  }

  lemma MoveStaysClosed(cfg: Config, n: Node, pc: Pc, state': NodeState, pc': Pc, spawned: Option<Loop>)
    requires n.state == Closed && Moves(cfg, n, pc, state', pc', spawned) && Sensible(cfg, pc) && !MayReopen(cfg, pc)
    ensures state' == Closed && !MayReopen(cfg, pc') && spawned == None
  {
  }

  lemma StepStaysClosed(cfg: Config, n: Node, s: Step)
    requires Inv(cfg, n) && n.stopped && n.state == Closed && NobodyMayReopen(cfg, n) && Enabled(cfg, n, s)
    ensures Apply(cfg, n, s).stopped && Apply(cfg, n, s).state == Closed && NobodyMayReopen(cfg, Apply(cfg, n, s))
  {
    var n' := Apply(cfg, n, s);
    assert n.goroutines[s.g] in n.goroutines;
    MoveStaysClosed(cfg, n, n.goroutines[s.g], s.state, s.pc, s.spawned);
    forall pc | pc in n'.goroutines
      ensures !MayReopen(cfg, pc)
    {
      var i :| 0 <= i < |n'.goroutines| && n'.goroutines[i] == pc;
      if i != s.g { assert n.goroutines[i] in n.goroutines; }
    }
  }

  lemma {:induction false} RunStaysClosed(cfg: Config, n: Node, run: seq<Step>)
    requires Inv(cfg, n) && n.stopped && n.state == Closed && NobodyMayReopen(cfg, n) && Exec(cfg, n, run).Some?
    ensures var n' := Exec(cfg, n, run).value;
            Inv(cfg, n') && n'.stopped && n'.state == Closed && NobodyMayReopen(cfg, n')
  {
    if run != [] {
      RunStaysClosed(cfg, n, run[..|run| - 1]);
      StepKeepsInv(cfg, Exec(cfg, n, run[..|run| - 1]).value, run[|run| - 1]);
      StepStaysClosed(cfg, Exec(cfg, n, run[..|run| - 1]).value, run[|run| - 1]);
    }
  }

  /** How many moves the raw setState is away. */
  function Distance(pc: Pc): nat {
    match pc
    case VerifyingChainID(_) => 4
    case VerifyingSync(_) => 3
    case Verified(_, result) => if result == Alive then 2 else 1
    case SettingDialed(_) => 0
    case SettingUnreachable => 0
    case _ => 1
  }

  /** The next stop on the way there. */
  function Towards(pc: Pc): Pc {
    match pc
    case StartDialing => SettingDialed(Start)
    case SettingDialed(caller) => VerifyingChainID(caller)
    case VerifyingChainID(caller) => VerifyingSync(caller)
    case VerifyingSync(caller) => Verified(caller, Alive)
    case Verified(_, result) => if result == Alive then Probing else SettingUnreachable
    case Probing => SettingUnreachable
    case SettingUnreachable => Waiting(UnreachableLoop)
    case _ => SettingDialed(Redial)
  }

  lemma MovesTowards(cfg: Config, n: Node, pc: Pc)
    requires n.state == Closed && MayReopen(cfg, pc)
    ensures Distance(pc) == 0 ==>
              Moves(cfg, n, pc, if pc.SettingDialed? then Dialed else Unreachable, Towards(pc), None)
    ensures Distance(pc) > 0 ==>
              && Moves(cfg, n, pc, Closed, Towards(pc), None) && MayReopen(cfg, Towards(pc))
              && Distance(Towards(pc)) < Distance(pc)
  {
  }

  lemma {:induction false} ExecAfter(cfg: Config, n: Node, s: Step, run: seq<Step>)
    requires Enabled(cfg, n, s)
    ensures Exec(cfg, n, [s] + run) == Exec(cfg, Apply(cfg, n, s), run)
  {
    var whole := [s] + run;
    if run == [] {
      assert whole[..|whole| - 1] == [] && whole[|whole| - 1] == s;
      assert Exec(cfg, n, []) == Some(n);
    } else {
      ExecAfter(cfg, n, s, run[..|run| - 1]);
      assert whole[..|whole| - 1] == [s] + run[..|run| - 1] && whole[|whole| - 1] == run[|run| - 1];
    }
  }

  lemma {:induction false} Reopens(cfg: Config, n: Node, g: nat) returns (run: seq<Step>)
    requires n.state == Closed && g < |n.goroutines| && MayReopen(cfg, n.goroutines[g])
    ensures Exec(cfg, n, run).Some? && Exec(cfg, n, run).value.state != Closed
    decreases Distance(n.goroutines[g])
  {
    var pc := n.goroutines[g];
    MovesTowards(cfg, n, pc);
    var state' := if Distance(pc) > 0 then Closed else if pc.SettingDialed? then Dialed else Unreachable;
    var s := Move(g, state', Towards(pc), None);
    var rest: seq<Step> := [];
    if Distance(pc) > 0 { rest := Reopens(cfg, Apply(cfg, n, s), g); }
    ExecAfter(cfg, n, s, rest);
    run := [s] + rest;
  }

  /** A closed node stays closed in every continuation if and only if no goroutine is at a point from which it may
      still run into a raw setState: dialing at the start, or anywhere in the redialing of an unreachable node. */
  lemma StaysClosedIff(cfg: Config, n: Node)
    requires Inv(cfg, n) && n.stopped && n.state == Closed
    ensures (forall run :: Exec(cfg, n, run).Some? ==> Exec(cfg, n, run).value.state == Closed) <==>
              NobodyMayReopen(cfg, n)
  {
    if NobodyMayReopen(cfg, n) {
      forall run | Exec(cfg, n, run).Some?
        ensures Exec(cfg, n, run).value.state == Closed
      {
        RunStaysClosed(cfg, n, run);
      }
    } else {
      var pc :| pc in n.goroutines && MayReopen(cfg, pc);
      var g :| 0 <= g < |n.goroutines| && n.goroutines[g] == pc;
      var run := Reopens(cfg, n, g);
    }
  }
}
