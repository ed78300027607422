/** The transaction manager of one address as a state machine.  The Broadcaster and the Confirmer run
    concurrently over one store; a step is one store update (or one read that decides what follows),
    so every interleaving of the two, of new requests, of failures and of restarts is a sequence of steps.
    Control points carry what the code holds in memory between two store accesses, which may be stale. */
module TxProtocol {
  import opened Wrappers
  import opened TxStore

  /** Where the Broadcaster is (chains/txmgr/broadcaster.go). */
  datatype BroadcasterAt =
    | BIdle                                          // between two passes of processUnstartedTxs
    | BLoop                                          // top of the loop, nothing in progress
    | BAllowed                                       // the MaxInFlight check passed
    | BPicked(id: TxId, sequence: int)               // handleUnstartedTx, sequence set in memory only
    | BSending(id: TxId, sequence: int, aid: AttemptId)  // handleInProgressTx
    | BSent(sequence: int)                           // stored as broadcast, tracker not yet advanced

  /** What the Confirmer goes back to after an attempt has been dealt with. */
  datatype Phase =
    | Stuck                                          // ProcessStuckTransactions
    | Leftovers(todo: set<AttemptId>)                // handleAnyInProgressAttempts
    | Bumps(ids: set<TxId>)                          // the loop of rebroadcastWhereNecessary

  /** Where the Confirmer is (chains/txmgr/confirmer.go). */
  datatype ConfirmerAt =
    | CIdle
    | CReorg(reorged: set<TxId>, tops: set<AttemptId>)        // ProcessReorgTxs, before its update
    | CIncluded(purged: set<TxId>, confirmed: set<TxId>)      // ProcessIncludedTxs, before its first update
    | CConfirming(included: set<TxId>)                        // ... before its second update
    | CAt(phase: Phase)
    | CSending(id: TxId, aid: AttemptId, phase: Phase)        // handleInProgressAttempt

  datatype Machine = Machine(
    db: Db,
    base: int,              // sequence of the address when it was first used
    next: int,              // the sequence tracker
    maxInFlight: nat,       // 0 switches the limit off
    b: BroadcasterAt,
    c: ConfirmerAt)

  datatype Step =
    | Create(id: TxId)
    | Prune(id: TxId)
    | Finalize(ids: set<TxId>)
    | Restart(loaded: int)
    | BResume(id: TxId, aid: AttemptId)
    | BNothingInProgress
    | BCount
    | BPick(id: TxId)
    | BRemoved
    | BFail
    | BFatal
    | BStart(aid: AttemptId, fee: int)
    | BReplace(aid: AttemptId, fee: int)
    | BBroadcast
    | BGenerate
    | CFindReorg(ids: set<TxId>, tops: set<AttemptId>)
    | CApplyReorg
    | CFindIncluded(ids: set<TxId>)
    | CApplyPurged
    | CApplyConfirmed
    | CSaveStuck(id: TxId, aid: AttemptId, fee: int)
    | CFindLeftovers(aids: set<AttemptId>)
    | CTakeLeftover(aid: AttemptId)
    | CFindBumps(ids: set<TxId>)
    | CSaveBump(id: TxId, aid: AttemptId, fee: int)
    | CResubmit(id: TxId, aid: AttemptId)
    | CReplace(aid: AttemptId, fee: int, isPurge: bool)
    | CSaveSent
    | CSaveConfirmed
    | CSaveInsufficient
    | CDelete
    | CFail
    | CDone

  function WithState(db: Db, state: TxState): set<TxId> {
    set id | id in db.txs && IsInState(db, id, state)
  }

  function CountState(db: Db, state: TxState): nat {
    |WithState(db, state)|
  }

  /** What LoadNextSequences loads: one above the highest broadcast sequence. */
  predicate IsNextNeeded(db: Db, base: int, n: int) {
    && (forall id | id in db.txs :: Sent(db.txs[id]) ==> db.txs[id].sequence.value < n)
    && (n == base || exists id | id in db.txs :: Sent(db.txs[id]) && db.txs[id].sequence.value == n - 1)
    && base <= n
  }

  predicate NewTop(db: Db, id: TxId, fee: int) {
    forall aid | aid in db.attempts :: AttemptOf(db, aid, id) ==> db.attempts[aid].fee < fee
  }

  /** Broadcast transactions that are not unconfirmed, each with its highest priced attempt. */
  predicate AreReorged(db: Db, ids: set<TxId>, tops: set<AttemptId>) {
    && (forall id | id in ids ::
          && IsSent(db, id) && db.txs[id].state != Unconfirmed
          && exists aid | aid in tops :: TopAttempt(db, aid, id))
    && (forall aid | aid in tops ::
          aid in db.attempts && db.attempts[aid].txId in ids && TopAttempt(db, aid, db.attempts[aid].txId))
    && (forall aid, other | aid in tops && other in tops ::
          db.attempts[aid].txId == db.attempts[other].txId ==> aid == other)
  }

  /** Attempts in progress of broadcast transactions, among them all those of unconfirmed ones. */
  predicate AreLeftovers(db: Db, aids: set<AttemptId>) {
    && (forall aid | aid in aids ::
          && aid in db.attempts && db.attempts[aid].state == AttemptInProgress
          && IsSent(db, db.attempts[aid].txId))
    && (forall aid | aid in db.attempts ::
          db.attempts[aid].state == AttemptInProgress && IsInState(db, db.attempts[aid].txId, Unconfirmed) ==>
            aid in aids)
  }

  predicate Enabled(m: Machine, s: Step) {
    match s
    case Create(id) => id !in m.db.txs
    case Prune(id) => IsInState(m.db, id, Unstarted)
    case Finalize(ids) => forall id | id in ids :: IsInState(m.db, id, Confirmed)
    case Restart(n) => IsNextNeeded(m.db, m.base, n)
    case BResume(id, aid) => m.b.BIdle? && IsInState(m.db, id, InProgress) && TopAttempt(m.db, aid, id)
    case BNothingInProgress => m.b.BIdle? && forall id | id in m.db.txs :: m.db.txs[id].state != InProgress
    case BCount => m.b.BLoop? && (m.maxInFlight == 0 || CountState(m.db, Unconfirmed) < m.maxInFlight)
    case BPick(id) => m.b.BAllowed? && IsInState(m.db, id, Unstarted)
    case BRemoved => m.b.BPicked? && m.b.id !in m.db.txs
    case BFail => !m.b.BSent?
    case BFatal => (m.b.BPicked? && m.b.id in m.db.txs) || m.b.BSending?
    case BStart(aid, _) => m.b.BPicked? && m.b.id in m.db.txs && aid !in m.db.attempts
    case BReplace(aid, _) => m.b.BSending? && aid !in m.db.attempts
    case BBroadcast => m.b.BSending?
    case BGenerate => m.b.BSent?
    case CFindReorg(ids, tops) => m.c.CIdle? && AreReorged(m.db, ids, tops)
    case CApplyReorg => m.c.CReorg?
    case CFindIncluded(ids) => m.c.CIdle? && forall id | id in ids :: IsInState(m.db, id, Unconfirmed)
    case CApplyPurged => m.c.CIncluded?
    case CApplyConfirmed => m.c.CConfirming?
    case CSaveStuck(id, aid, fee) =>
      && m.c.CIdle? && IsInState(m.db, id, Unconfirmed) && aid !in m.db.attempts && NewTop(m.db, id, fee)
      && !HasInProgressAttempt(m.db, id)
    case CFindLeftovers(aids) => m.c.CIdle? && AreLeftovers(m.db, aids)
    case CTakeLeftover(aid) => m.c.CAt? && m.c.phase.Leftovers? && aid in m.c.phase.todo && aid in m.db.attempts
    case CFindBumps(ids) =>
      m.c == CAt(Leftovers({})) && forall id | id in ids :: IsInState(m.db, id, Unconfirmed)
    case CSaveBump(id, aid, fee) =>
      m.c.CAt? && m.c.phase.Bumps? && id in m.c.phase.ids && aid !in m.db.attempts && NewTop(m.db, id, fee)
    case CResubmit(id, aid) =>
      m.c.CAt? && m.c.phase.Bumps? && id in m.c.phase.ids && TopAttempt(m.db, aid, id)
    case CReplace(aid, fee, _) =>
      m.c.CSending? && m.c.aid in m.db.attempts && aid !in m.db.attempts && fee > m.db.attempts[m.c.aid].fee
    case CSaveSent => m.c.CSending?
    case CSaveConfirmed => m.c.CSending?
    case CSaveInsufficient => m.c.CSending?
    case CDelete => m.c.CSending?
    case CFail => true
    case CDone => m.c.CAt?
  }

  function Apply(m: Machine, s: Step): Machine
    requires Enabled(m, s)
  {
    match s
    case Create(id) => m.(db := CreateTransaction(m.db, id))
    case Prune(id) => m.(db := RemoveTransaction(m.db, id))
    case Finalize(ids) => m.(db := m.db.(txs := SetStates(m.db.txs, ids, Finalized)))
    case Restart(n) => m.(b := BIdle, next := n)
    case BResume(id, aid) =>
      var sequence := m.db.txs[id].sequence;
      m.(b := BSending(id, if sequence.Some? then sequence.value else 0, aid))
    case BNothingInProgress => m.(b := BLoop)
    case BCount => m.(b := BAllowed)
    case BPick(id) => m.(b := BPicked(id, m.next))
    case BRemoved => m.(b := BLoop)
    case BFail => m.(b := BIdle)
    case BFatal => m.(db := UpdateTxFatalErrorAndDeleteAttempts(m.db, m.b.id), b := BLoop)
    case BStart(aid, fee) =>
      m.(db := UpdateTxUnstartedToInProgress(m.db, m.b.id, m.b.sequence, aid, fee),
         b := BSending(m.b.id, m.b.sequence, aid))
    case BReplace(aid, fee) =>
      m.(db := SaveReplacementInProgressAttempt(m.db, m.b.aid, aid, Attempt(m.b.id, AttemptInProgress, fee, false)),
         b := m.b.(aid := aid))
    case BBroadcast =>
      m.(db := UpdateTxAttemptInProgressToBroadcast(m.db, m.b.id, m.b.aid), b := BSent(m.b.sequence))
    case BGenerate => m.(next := m.b.sequence + 1, b := BLoop)
    case CFindReorg(ids, tops) => m.(c := CReorg(ids, tops))
    case CApplyReorg => m.(db := UpdateTxsForRebroadcast(m.db, m.c.reorged, m.c.tops), c := CIdle)
    case CFindIncluded(ids) =>
      m.(c := CIncluded(set id | id in ids && HasPurgeAttempt(m.db, id),
                        set id | id in ids && !HasPurgeAttempt(m.db, id)))
    case CApplyPurged => m.(db := UpdateTxFatalError(m.db, m.c.purged), c := CConfirming(m.c.confirmed))
    case CApplyConfirmed => m.(db := UpdateTxConfirmed(m.db, m.c.included), c := CIdle)
    case CSaveStuck(id, aid, fee) =>
      m.(db := SaveInProgressAttempt(m.db, aid, Attempt(id, AttemptInProgress, fee, true)),
          c := CSending(id, aid, Stuck))
    case CFindLeftovers(aids) => m.(c := CAt(Leftovers(aids)))
    case CTakeLeftover(aid) =>
      m.(c := CSending(m.db.attempts[aid].txId, aid, Leftovers(m.c.phase.todo - {aid})))
    case CFindBumps(ids) => m.(c := CAt(Bumps(ids)))
    case CSaveBump(id, aid, fee) =>
      m.(db := SaveInProgressAttempt(m.db, aid, Attempt(id, AttemptInProgress, fee, false)),
         c := CSending(id, aid, Bumps(m.c.phase.ids - {id})))
    case CResubmit(id, aid) =>
      m.(db := SaveInProgressAttempt(m.db, aid, m.db.attempts[aid]),
          c := CSending(id, aid, Bumps(m.c.phase.ids - {id})))
    case CReplace(aid, fee, isPurge) =>
      m.(db := SaveReplacementInProgressAttempt(m.db, m.c.aid, aid, Attempt(m.c.id, AttemptInProgress, fee, isPurge)),
         c := m.c.(aid := aid))
    case CSaveSent => m.(db := SaveSentAttempt(m.db, m.c.aid), c := CAt(m.c.phase))
    case CSaveConfirmed => m.(db := SaveConfirmedAttempt(m.db, m.c.id, m.c.aid), c := CAt(m.c.phase))
    case CSaveInsufficient => m.(db := SaveInsufficientFundsAttempt(m.db, m.c.aid), c := CAt(m.c.phase))
    case CDelete => m.(db := DeleteInProgressAttempt(m.db, m.c.aid), c := CAt(m.c.phase))
    case CFail => m.(c := CIdle)
    case CDone => m.(c := CIdle)
  }

  /** The state after a run, or None when some step of it was not possible. */
  function Exec(m: Machine, run: seq<Step>): Option<Machine> {
    if run == [] then Some(m)
    else
      var before := Exec(m, run[..|run| - 1]);
      if before.Some? && Enabled(before.value, run[|run| - 1])
      then Some(Apply(before.value, run[|run| - 1]))
      else None
  }

  lemma ExecExtends(m: Machine, run: seq<Step>, s: Step)
    requires Exec(m, run).Some? && Enabled(Exec(m, run).value, s)
    ensures Exec(m, run + [s]) == Some(Apply(Exec(m, run).value, s))
  {
    assert (run + [s])[..|run|] == run;
  }

  lemma ApplyKeepsConfig(m: Machine, s: Step)
    requires Enabled(m, s)
    ensures Apply(m, s).base == m.base && Apply(m, s).maxInFlight == m.maxInFlight
  {
  }

  // ----- the promises -----

  /** The broadcast transactions hold pairwise distinct sequences, and these are exactly base .. top-1. */
  ghost predicate GapFree(db: Db, base: int, top: int) {
    && base <= top
    && (forall id :: IsSent(db, id) ==> base <= db.txs[id].sequence.value < top)
    && (forall id, other :: IsSent(db, id) && IsSent(db, other) && db.txs[id].sequence == db.txs[other].sequence ==>
          id == other)
    && (forall q :: base <= q < top ==> Holder(db, q))
  }

  ghost predicate Holder(db: Db, q: int) {
    exists id :: IsSent(db, id) && db.txs[id].sequence == Some(q)
  }

  /** The sequence after the last broadcast one: the tracker's, unless it is about to be advanced. */
  function Top(m: Machine): int {
    if m.b.BSent? then m.b.sequence + 1 else m.next
  }

  /** At most one transaction is in_progress, and it holds `top`. */
  ghost predicate OneInProgress(db: Db, top: int) {
    && (forall id :: IsInState(db, id, InProgress) ==> db.txs[id].sequence == Some(top))
    && (forall id, other :: IsInState(db, id, InProgress) && IsInState(db, other, InProgress) ==> id == other)
  }

  ghost predicate NoneInProgress(db: Db) {
    forall id :: !IsInState(db, id, InProgress)
  }

  /** No transaction has two attempts in progress. */
  ghost predicate OneInProgressAttempt(db: Db) {
    forall id, aid, other :: InProgressAttemptOf(db, aid, id) && InProgressAttemptOf(db, other, id) ==> aid == other
  }

  // ----- the invariant: sequences -----

  /** A sequence is held from the start of a broadcast on, and by nothing unstarted. */
  ghost predicate StatesFit(db: Db) {
    forall id :: id in db.txs ==>
      && (db.txs[id].state == Unstarted ==> db.txs[id].sequence == None)
      && (db.txs[id].state != Unstarted && db.txs[id].state != FatalError ==> db.txs[id].sequence.Some?)
  }

  ghost predicate BroadcasterFits(m: Machine) {
    match m.b
    case BIdle => true
    case BLoop => NoneInProgress(m.db)
    case BAllowed => NoneInProgress(m.db)
    case BPicked(id, sequence) =>
      NoneInProgress(m.db) && sequence == m.next && (id in m.db.txs ==> m.db.txs[id].state == Unstarted)
    case BSending(id, sequence, aid) =>
      IsInState(m.db, id, InProgress) && sequence == m.next
    case BSent(sequence) => NoneInProgress(m.db) && sequence == m.next
  }

  /** Everything the Confirmer holds in memory is a transaction that stays broadcast. */
  ghost predicate ConfirmerFits(db: Db, c: ConfirmerAt) {
    match c
    case CIdle => true
    case CReorg(ids, tops) => forall id :: id in ids ==> IsSent(db, id)
    case CIncluded(purged, confirmed) =>
      (forall id :: id in purged ==> IsSent(db, id)) && (forall id :: id in confirmed ==> IsSent(db, id))
    case CConfirming(included) => forall id :: id in included ==> IsSent(db, id)
    case CAt(phase) => PhaseFits(db, phase)
    case CSending(id, aid, phase) => IsSent(db, id) && PhaseFits(db, phase)
  }

  ghost predicate PhaseFits(db: Db, phase: Phase) {
    match phase
    case Stuck => true
    case Leftovers(todo) => forall aid :: aid in todo ==> aid in db.attempts && IsSent(db, db.attempts[aid].txId)
    case Bumps(ids) => forall id :: id in ids ==> IsSent(db, id)
  }

  ghost predicate SequenceInv(m: Machine) {
    && StatesFit(m.db)
    && GapFree(m.db, m.base, Top(m))
    && OneInProgress(m.db, Top(m))
    && BroadcasterFits(m)
    && ConfirmerFits(m.db, m.c)
  }

  // ----- the invariant: attempts -----

  /** Attempts belong to transactions that hold a sequence; those of one transaction have distinct fees;
      one in progress has the highest fee; the in_progress transaction has exactly one attempt. */
  ghost predicate AttemptsFit(db: Db) {
    && AttemptsHaveHolders(db)
    && (forall aid, other :: Siblings(db, aid, other) && aid != other ==>
          db.attempts[aid].fee != db.attempts[other].fee)
    && (forall aid, other :: Siblings(db, aid, other) && db.attempts[aid].state == AttemptInProgress ==>
          db.attempts[other].fee <= db.attempts[aid].fee)
    && (forall aid, other :: Siblings(db, aid, other) && IsInState(db, db.attempts[aid].txId, InProgress) ==>
          aid == other)
    && (forall aid :: aid in db.attempts && IsInState(db, db.attempts[aid].txId, InProgress) ==>
          db.attempts[aid].state == AttemptInProgress)
    && (forall id :: IsInState(db, id, InProgress) ==> HasInProgressAttempt(db, id))
  }

  ghost predicate AttemptsHaveHolders(db: Db) {
    forall aid :: aid in db.attempts ==> db.attempts[aid].txId in db.txs && db.txs[db.attempts[aid].txId].sequence.Some?
  }

  /** Two attempts of one transaction. */
  predicate Siblings(db: Db, aid: AttemptId, other: AttemptId) {
    aid in db.attempts && other in db.attempts && db.attempts[aid].txId == db.attempts[other].txId
  }

  ghost predicate BroadcasterHolds(db: Db, b: BroadcasterAt) {
    b.BSending? ==> InProgressAttemptOf(db, b.aid, b.id)
  }

  ghost predicate ConfirmerHolds(db: Db, c: ConfirmerAt) {
    match c
    case CReorg(ids, tops) =>
      forall aid :: aid in tops ==>
          aid in db.attempts && db.attempts[aid].txId in ids && TopAttempt(db, aid, db.attempts[aid].txId)
    case CAt(phase) => LeftAlone(db, phase, None)
    case CSending(id, aid, phase) => InProgressAttemptOf(db, aid, id) && LeftAlone(db, phase, Some(aid))
    case _ => true
  }

  /** What a phase has not reached yet: leftovers still to do are in progress and no other attempt of an
      unconfirmed transaction is; when it comes to bumps no attempt of an unconfirmed transaction is, except the current
      one, and transactions still to bump have none. */
  ghost predicate LeftAlone(db: Db, phase: Phase, current: Option<AttemptId>) {
    match phase
    case Stuck => true
    case Leftovers(todo) =>
      && (forall aid :: aid in todo ==>
            aid in db.attempts && db.attempts[aid].state == AttemptInProgress && Some(aid) != current)
      && (forall aid :: aid in db.attempts && db.attempts[aid].state == AttemptInProgress ==>
            IsInState(db, db.attempts[aid].txId, Unconfirmed) ==> aid in todo || Some(aid) == current)
    case Bumps(ids) =>
      && (forall aid :: aid in db.attempts && db.attempts[aid].txId in ids ==>
            db.attempts[aid].state != AttemptInProgress)
      && (forall aid :: aid in db.attempts && db.attempts[aid].state == AttemptInProgress ==>
            IsInState(db, db.attempts[aid].txId, Unconfirmed) ==> Some(aid) == current)
  }

  ghost predicate Inv(m: Machine) {
    && SequenceInv(m)
    && AttemptsFit(m.db)
    && BroadcasterHolds(m.db, m.b)
    && ConfirmerHolds(m.db, m.c)
  }

  // ----- every step keeps the invariant -----

  /** Only broadcast transactions changed, and they stay broadcast with their sequence. */
  ghost predicate SameHolders(db: Db, db': Db) {
    && db'.txs.Keys == db.txs.Keys
    && forall id :: id in db.txs ==>
         || db'.txs[id] == db.txs[id]
         || (Sent(db.txs[id]) && Sent(db'.txs[id]) && db'.txs[id].state != Unstarted
               && db'.txs[id].sequence == db.txs[id].sequence)
  }

  lemma SameHoldersKeepSequences(m: Machine, m': Machine)
    requires SequenceInv(m) && SameHolders(m.db, m'.db)
    requires m'.b == m.b && m'.base == m.base && m'.next == m.next
    ensures StatesFit(m'.db) && GapFree(m'.db, m'.base, Top(m')) && OneInProgress(m'.db, Top(m')) && BroadcasterFits(m')
    ensures forall id :: IsSent(m'.db, id) <==> IsSent(m.db, id)
    ensures forall id :: IsInState(m'.db, id, InProgress) <==> IsInState(m.db, id, InProgress)
  {
    assert forall id :: IsSent(m'.db, id) <==> IsSent(m.db, id);
    assert forall id :: IsInState(m'.db, id, InProgress) <==> IsInState(m.db, id, InProgress);
    forall q | m.base <= q < Top(m) ensures Holder(m'.db, q) {
      assert Holder(m.db, q);
      var id :| IsSent(m.db, id) && m.db.txs[id].sequence == Some(q);
      assert IsSent(m'.db, id);
    }
  }

  predicate OfConfirmer(s: Step) {
    || s.CFindReorg? || s.CApplyReorg? || s.CFindIncluded? || s.CApplyPurged? || s.CApplyConfirmed? || s.CSaveStuck?
    || s.CFindLeftovers? || s.CTakeLeftover? || s.CFindBumps? || s.CSaveBump? || s.CResubmit? || s.CReplace?
    || s.CSaveSent? || s.CSaveConfirmed? || s.CSaveInsufficient? || s.CDelete? || s.CFail? || s.CDone?
  }

  predicate OfBroadcaster(s: Step) {
    || s.Restart? || s.BResume? || s.BNothingInProgress? || s.BCount? || s.BPick? || s.BRemoved? || s.BFail?
    || s.BFatal? || s.BStart? || s.BReplace? || s.BBroadcast? || s.BGenerate?
  }

  /** A change of one transaction that is not broadcast before or after moves no holder. */
  lemma OthersKeepHolders(db: Db, db': Db, id: TxId, base: int, top: int)
    requires GapFree(db, base, top)
    requires !IsSent(db, id) && !IsSent(db', id)
    requires forall other :: other != id ==> (other in db'.txs <==> other in db.txs)
    requires forall other :: other != id && other in db.txs ==> db'.txs[other] == db.txs[other]
    ensures GapFree(db', base, top)
    ensures forall other :: IsSent(db', other) <==> IsSent(db, other)
  {
    assert forall other :: IsSent(db', other) <==> IsSent(db, other);
    forall q | base <= q < top ensures Holder(db', q) {
      assert Holder(db, q);
      var h :| IsSent(db, h) && db.txs[h].sequence == Some(q);
      assert IsSent(db', h);
    }
  }

  /** Broadcasting the in_progress transaction makes it the holder of the next sequence. */
  lemma BroadcastExtendsHolders(db: Db, db': Db, id: TxId, base: int, top: int)
    requires GapFree(db, base, top)
    requires IsInState(db, id, InProgress) && db.txs[id].sequence == Some(top)
    requires db'.txs == SetStates(db.txs, {id}, Unconfirmed)
    ensures GapFree(db', base, top + 1)
    ensures forall other :: IsSent(db', other) <==> IsSent(db, other) || other == id
  {
    assert forall other :: IsSent(db', other) <==> IsSent(db, other) || other == id;
    forall q | base <= q < top + 1 ensures Holder(db', q) {
      if q < top {
        assert Holder(db, q);
        var h :| IsSent(db, h) && db.txs[h].sequence == Some(q);
        assert IsSent(db', h);
      } else {
        assert IsSent(db', id);
      }
    }
  }

  /** What a restart loads is the sequence after the last broadcast one. */
  lemma LoadedIsTop(db: Db, base: int, top: int, n: int)
    requires GapFree(db, base, top) && IsNextNeeded(db, base, n)
    ensures n == top
  {
    if base < top {
      assert Holder(db, top - 1);
      var last :| IsSent(db, last) && db.txs[last].sequence == Some(top - 1);
    }
    if n != base {
      var last :| last in db.txs && Sent(db.txs[last]) && db.txs[last].sequence.value == n - 1;
      assert IsSent(db, last);
    }
  }

  /** Broadcast transactions and their attempts are untouched; one broadcast just now has nothing in progress. */
  ghost predicate SentUntouched(db: Db, db': Db) {
    && (forall id :: IsSent(db, id) ==> id in db'.txs && db'.txs[id] == db.txs[id])
    && (forall aid :: aid in db.attempts && IsSent(db, db.attempts[aid].txId) ==>
          aid in db'.attempts && db'.attempts[aid] == db.attempts[aid])
    && (forall aid :: aid in db'.attempts && IsSent(db, db'.attempts[aid].txId) ==>
          aid in db.attempts && db.attempts[aid] == db'.attempts[aid])
    && (forall aid :: aid in db'.attempts && IsSent(db', db'.attempts[aid].txId) && !IsSent(db, db'.attempts[aid].txId)
                      ==> db'.attempts[aid].state != AttemptInProgress)
  }

  lemma UntouchedKeepsConfirmer(db: Db, db': Db, c: ConfirmerAt)
    requires SentUntouched(db, db') && StatesFit(db') && ConfirmerFits(db, c) && ConfirmerHolds(db, c)
    ensures ConfirmerFits(db', c) && ConfirmerHolds(db', c)
  {
    assert forall id :: IsSent(db, id) ==> IsSent(db', id);
    match c
    case CReorg(ids, tops) =>
      forall aid | aid in tops ensures aid in db'.attempts && TopAttempt(db', aid, db.attempts[aid].txId) {
        assert TopAttempt(db, aid, db.attempts[aid].txId);
      }
    case CAt(phase) => UntouchedKeepsPhase(db, db', phase, None);
    case CSending(id, aid, phase) => UntouchedKeepsPhase(db, db', phase, Some(aid));
    case _ =>
  }

  lemma UntouchedKeepsPhase(db: Db, db': Db, phase: Phase, current: Option<AttemptId>)
    requires SentUntouched(db, db') && StatesFit(db') && PhaseFits(db, phase) && LeftAlone(db, phase, current)
    ensures PhaseFits(db', phase) && LeftAlone(db', phase, current)
  {
    assert forall id :: IsSent(db, id) ==> IsSent(db', id);
    match phase
    case Stuck =>
    case Leftovers(todo) =>
      forall aid | aid in db'.attempts && db'.attempts[aid].state == AttemptInProgress
          && IsInState(db', db'.attempts[aid].txId, Unconfirmed)
        ensures aid in todo || Some(aid) == current
      {
        assert IsSent(db', db'.attempts[aid].txId);
      }
    case Bumps(ids) =>
      forall aid | aid in db'.attempts && db'.attempts[aid].state == AttemptInProgress
          && IsInState(db', db'.attempts[aid].txId, Unconfirmed)
        ensures Some(aid) == current
      {
        assert IsSent(db', db'.attempts[aid].txId);
      }
  }

  lemma FatalFits(db: Db, id: TxId)
    requires AttemptsFit(db) && StatesFit(db) && id in db.txs && !IsSent(db, id)
    requires forall other :: IsInState(db, other, InProgress) ==> other == id
    ensures var db' := UpdateTxFatalErrorAndDeleteAttempts(db, id);
            StatesFit(db') && AttemptsFit(db') && NoneInProgress(db') && SentUntouched(db, db')
  {
    var db' := UpdateTxFatalErrorAndDeleteAttempts(db, id);
    assert forall x, y :: Siblings(db', x, y) ==> Siblings(db, x, y);
    assert forall other :: IsInState(db', other, InProgress) ==> IsInState(db, other, InProgress) && other != id;
    assert forall other :: IsSent(db', other) ==> IsSent(db, other);
  }

  lemma FatalKeepsInv(m: Machine, s: Step)
    requires Inv(m) && s.BFatal? && Enabled(m, s)
    ensures Inv(Apply(m, s))
  {
    var m' := Apply(m, s);
    FatalFits(m.db, m.b.id);
    OthersKeepHolders(m.db, m'.db, m.b.id, m.base, Top(m));
    UntouchedKeepsConfirmer(m.db, m'.db, m.c);
  }

  lemma StartFits(db: Db, id: TxId, sequence: int, aid: AttemptId, fee: int)
    requires AttemptsFit(db) && StatesFit(db) && NoneInProgress(db) && IsInState(db, id, Unstarted)
    requires aid !in db.attempts
    ensures var db' := UpdateTxUnstartedToInProgress(db, id, sequence, aid, fee);
            && StatesFit(db') && AttemptsFit(db') && SentUntouched(db, db')
            && (forall other :: IsInState(db', other, InProgress) <==> other == id)
  {
    var db' := UpdateTxUnstartedToInProgress(db, id, sequence, aid, fee);
    assert forall x :: x in db.attempts ==> db.attempts[x].txId != id;
    assert forall x, y :: Siblings(db', x, y) && x != y ==> Siblings(db, x, y);
    assert forall other :: IsInState(db', other, InProgress) ==> IsInState(db, other, InProgress) || other == id;
    assert InProgressAttemptOf(db', aid, id);
    assert forall other :: IsSent(db', other) ==> IsSent(db, other);
  }

  lemma StartKeepsInv(m: Machine, s: Step)
    requires Inv(m) && s.BStart? && Enabled(m, s)
    ensures Inv(Apply(m, s))
  {
    var m' := Apply(m, s);
    StartFits(m.db, m.b.id, m.b.sequence, s.aid, s.fee);
    OthersKeepHolders(m.db, m'.db, m.b.id, m.base, Top(m));
    UntouchedKeepsConfirmer(m.db, m'.db, m.c);
  }

  /** Replacing the attempt in progress by one above the remaining ones. */
  lemma ReplacementFits(db: Db, replaced: AttemptId, aid: AttemptId, attempt: Attempt)
    requires AttemptsFit(db)
    requires replaced in db.attempts && aid !in db.attempts
    requires db.attempts[replaced].state == AttemptInProgress && attempt.txId == db.attempts[replaced].txId
    requires forall other :: Siblings(db, replaced, other) && other != replaced ==> db.attempts[other].fee < attempt.fee
    ensures AttemptsFit(SaveReplacementInProgressAttempt(db, replaced, aid, attempt))
  {
    var db' := SaveReplacementInProgressAttempt(db, replaced, aid, attempt);
    assert forall x, y :: Siblings(db', x, y) && x != aid && y != aid ==>
        Siblings(db, x, y) && x != replaced && y != replaced;
    assert forall x :: Siblings(db', x, aid) && x != aid ==> Siblings(db, replaced, x);
    assert forall x :: Siblings(db', aid, x) && x != aid ==> Siblings(db, replaced, x);
    assert forall id :: IsInState(db', id, InProgress) <==> IsInState(db, id, InProgress);
    forall id | IsInState(db', id, InProgress) ensures HasInProgressAttempt(db', id) {
      assert IsInState(db, id, InProgress);
      var held :| held in db.attempts && InProgressAttemptOf(db, held, id);
      assert InProgressAttemptOf(db', if held == replaced then aid else held, id);
    }
  }

  lemma ReplaceKeepsInv(m: Machine, s: Step)
    requires Inv(m) && s.BReplace? && Enabled(m, s)
    ensures Inv(Apply(m, s))
  {
    var m' := Apply(m, s);
    ReplacementFits(m.db, m.b.aid, s.aid, Attempt(m.b.id, AttemptInProgress, s.fee, false));
    SameHoldersKeepSequences(m, m'.(b := m.b));
    UntouchedKeepsConfirmer(m.db, m'.db, m.c);
  }

  /** Only the broadcast transaction and its attempt change. */
  lemma BroadcastChanges(db: Db, id: TxId, aid: AttemptId)
    requires InProgressAttemptOf(db, aid, id) && IsInState(db, id, InProgress)
    ensures var db' := UpdateTxAttemptInProgressToBroadcast(db, id, aid);
            && (forall x, y :: Siblings(db', x, y) ==> Siblings(db, x, y))
            && (forall x :: IsInState(db', x, InProgress) ==> IsInState(db, x, InProgress) && x != id)
            && (forall x :: IsSent(db, x) ==> IsSent(db', x) && db'.txs[x] == db.txs[x])
  {
  }

  lemma BroadcastLeavesSent(db: Db, id: TxId, aid: AttemptId)
    requires AttemptsFit(db) && InProgressAttemptOf(db, aid, id) && IsInState(db, id, InProgress)
    ensures SentUntouched(db, UpdateTxAttemptInProgressToBroadcast(db, id, aid))
  {
    assert forall other :: Siblings(db, aid, other) ==> other == aid;
  }

  lemma BroadcastFits(db: Db, id: TxId, aid: AttemptId)
    requires AttemptsFit(db) && InProgressAttemptOf(db, aid, id) && IsInState(db, id, InProgress)
    requires forall other :: IsInState(db, other, InProgress) ==> other == id
    ensures AttemptsFit(UpdateTxAttemptInProgressToBroadcast(db, id, aid))
    ensures NoneInProgress(UpdateTxAttemptInProgressToBroadcast(db, id, aid))
  {
    BroadcastChanges(db, id, aid);
    assert NoneInProgress(UpdateTxAttemptInProgressToBroadcast(db, id, aid));
  }

  lemma BroadcastKeepsInv(m: Machine, s: Step)
    requires Inv(m) && s.BBroadcast? && Enabled(m, s)
    ensures Inv(Apply(m, s))
  {
    var m' := Apply(m, s);
    BroadcastFits(m.db, m.b.id, m.b.aid);
    BroadcastLeavesSent(m.db, m.b.id, m.b.aid);
    BroadcastExtendsHolders(m.db, m'.db, m.b.id, m.base, Top(m));
    assert StatesFit(m'.db);
    UntouchedKeepsConfirmer(m.db, m'.db, m.c);
  }

  lemma BroadcasterKeepsInv(m: Machine, s: Step)
    requires Inv(m) && OfBroadcaster(s) && Enabled(m, s)
    ensures Inv(Apply(m, s))
  {
    match s
    case Restart(n) => LoadedIsTop(m.db, m.base, Top(m), n);
    case BFatal => FatalKeepsInv(m, s);
    case BStart(aid, fee) => StartKeepsInv(m, s);
    case BReplace(aid, fee) => ReplaceKeepsInv(m, s);
    case BBroadcast => BroadcastKeepsInv(m, s);
    case BResume(id, aid) =>
    case BNothingInProgress => assert forall id :: IsInState(m.db, id, InProgress) ==> id in m.db.txs;
    case _ =>
  }

  // ----- the Confirmer's steps -----

  lemma RestatedFits(db: Db, db': Db)
    requires AttemptsFit(db) && SameHolders(db, db') && db'.attempts == db.attempts
    ensures AttemptsFit(db')
  {
    assert forall x, y :: Siblings(db', x, y) <==> Siblings(db, x, y);
    assert forall id :: IsInState(db', id, InProgress) <==> IsInState(db, id, InProgress);
    forall id | IsInState(db', id, InProgress) ensures HasInProgressAttempt(db', id) {
      assert IsInState(db, id, InProgress);
      var held :| held in db.attempts && InProgressAttemptOf(db, held, id);
      assert InProgressAttemptOf(db', held, id);
    }
  }

  /** An attempt above all others of its transaction goes in progress. */
  lemma NewAttemptFits(db: Db, aid: AttemptId, attempt: Attempt)
    requires AttemptsFit(db)
    requires aid in db.attempts ==> db.attempts[aid].txId == attempt.txId
    requires IsSent(db, attempt.txId)
    requires forall other :: other in db.attempts && other != aid && db.attempts[other].txId == attempt.txId
               ==> db.attempts[other].fee < attempt.fee && db.attempts[other].state != AttemptInProgress
    ensures AttemptsFit(SaveInProgressAttempt(db, aid, attempt))
  {
    var db' := SaveInProgressAttempt(db, aid, attempt);
    assert forall x, y :: Siblings(db', x, y) && x != aid && y != aid ==> Siblings(db, x, y);
    assert forall id :: IsInState(db', id, InProgress) <==> IsInState(db, id, InProgress);
    forall id | IsInState(db', id, InProgress) ensures HasInProgressAttempt(db', id) {
      assert IsInState(db, id, InProgress);
      var held :| held in db.attempts && InProgressAttemptOf(db, held, id);
      assert InProgressAttemptOf(db', held, id);
    }
  }

  /** An attempt of a broadcast transaction stops being in progress, or disappears. */
  ghost predicate Settled(db: Db, db': Db, aid: AttemptId) {
    && aid in db.attempts && IsSent(db, db.attempts[aid].txId)
    && SameHolders(db, db')
    && (forall other :: other != aid ==> (other in db'.attempts <==> other in db.attempts))
    && (forall other :: other != aid && other in db.attempts ==> db'.attempts[other] == db.attempts[other])
    && (aid in db'.attempts ==>
          && db'.attempts[aid].state != AttemptInProgress
          && db'.attempts[aid].txId == db.attempts[aid].txId
          && db'.attempts[aid].fee == db.attempts[aid].fee)
    && (forall id :: IsInState(db', id, Unconfirmed) ==> IsInState(db, id, Unconfirmed))
  }

  lemma SettledFits(db: Db, db': Db, aid: AttemptId)
    requires AttemptsFit(db) && Settled(db, db', aid)
    ensures AttemptsFit(db')
  {
    assert forall x, y :: Siblings(db', x, y) ==> Siblings(db, x, y);
    assert forall id :: IsInState(db', id, InProgress) <==> IsInState(db, id, InProgress);
    forall id | IsInState(db', id, InProgress) ensures HasInProgressAttempt(db', id) {
      assert IsInState(db, id, InProgress);
      var held :| held in db.attempts && InProgressAttemptOf(db, held, id);
      assert InProgressAttemptOf(db', held, id);
    }
  }

  lemma SettledKeepsPhase(db: Db, db': Db, aid: AttemptId, phase: Phase)
    requires Settled(db, db', aid) && PhaseFits(db, phase) && LeftAlone(db, phase, Some(aid))
    ensures PhaseFits(db', phase) && LeftAlone(db', phase, None)
  {
    assert forall id :: IsSent(db, id) ==> IsSent(db', id);
  }

  lemma SettleSettles(m: Machine, s: Step)
    requires Enabled(m, s) && (s.CSaveSent? || s.CSaveConfirmed? || s.CSaveInsufficient? || s.CDelete?)
    requires AttemptOf(m.db, m.c.aid, m.c.id) && IsSent(m.db, m.c.id)
    ensures Settled(m.db, Apply(m, s).db, m.c.aid)
  {
  }

  lemma SettledKeepsBroadcaster(db: Db, db': Db, aid: AttemptId, b: BroadcasterAt)
    requires Settled(db, db', aid) && BroadcasterHolds(db, b) && (b.BSending? ==> IsInState(db, b.id, InProgress))
    ensures BroadcasterHolds(db', b)
  {
  }

  lemma SettledIsFine(m: Machine, s: Step)
    requires Inv(m) && Enabled(m, s) && (s.CSaveSent? || s.CSaveConfirmed? || s.CSaveInsufficient? || s.CDelete?)
    ensures AttemptsFit(Apply(m, s).db) && ConfirmerIsFine(Apply(m, s).db, Apply(m, s).c)
  {
    SettleSettles(m, s);
    SettledFits(m.db, Apply(m, s).db, m.c.aid);
    SettledKeepsPhase(m.db, Apply(m, s).db, m.c.aid, m.c.phase);
  }

  lemma SettleKeepsInv(m: Machine, s: Step)
    requires Inv(m) && Enabled(m, s) && (s.CSaveSent? || s.CSaveConfirmed? || s.CSaveInsufficient? || s.CDelete?)
    ensures Inv(Apply(m, s))
  {
    SettleSettles(m, s);
    SettledIsFine(m, s);
    SettledKeepsBroadcaster(m.db, Apply(m, s).db, m.c.aid, m.b);
    SameHoldersKeepSequences(m, Apply(m, s));
  }

  /** The broadcast transaction `id` gets the attempt `aid` in progress; nothing else changes. */
  ghost predicate Raised(db: Db, db': Db, id: TxId, aid: AttemptId) {
    && db'.txs == db.txs && IsSent(db, id)
    && InProgressAttemptOf(db', aid, id)
    && (aid in db.attempts ==> db.attempts[aid].txId == id)
    && (forall other :: other != aid && other in db'.attempts ==>
          other in db.attempts && db'.attempts[other] == db.attempts[other])
    && (forall other :: other != aid && other in db.attempts && db.attempts[other].txId != id ==> other in db'.attempts)
  }

  lemma RaisedKeepsBroadcaster(m: Machine, m': Machine, id: TxId, aid: AttemptId)
    requires Inv(m) && Raised(m.db, m'.db, id, aid)
    requires m'.b == m.b && m'.base == m.base && m'.next == m.next
    ensures StatesFit(m'.db) && GapFree(m'.db, m'.base, Top(m')) && OneInProgress(m'.db, Top(m')) && BroadcasterFits(m')
    ensures BroadcasterHolds(m'.db, m'.b)
    ensures forall x :: IsSent(m'.db, x) <==> IsSent(m.db, x)
  {
    SameHoldersKeepSequences(m, m');
  }

  lemma SaveStuckKeepsInv(m: Machine, s: Step)
    requires Inv(m) && s.CSaveStuck? && Enabled(m, s)
    ensures Inv(Apply(m, s))
  {
    var m' := Apply(m, s);
    assert forall other :: other in m.db.attempts && m.db.attempts[other].txId == s.id ==>
        !InProgressAttemptOf(m.db, other, s.id) && AttemptOf(m.db, other, s.id);
    NewAttemptFits(m.db, s.aid, Attempt(s.id, AttemptInProgress, s.fee, true));
    RaisedKeepsBroadcaster(m, m', s.id, s.aid);
  }

  lemma SaveBumpFits(m: Machine, s: Step)
    requires Inv(m) && s.CSaveBump? && Enabled(m, s)
    ensures AttemptsFit(Apply(m, s).db) && Raised(m.db, Apply(m, s).db, s.id, s.aid)
  {
    assert forall other :: other in m.db.attempts && m.db.attempts[other].txId == s.id ==> AttemptOf(m.db, other, s.id);
    NewAttemptFits(m.db, s.aid, Attempt(s.id, AttemptInProgress, s.fee, false));
  }

  lemma SaveBumpKeepsInv(m: Machine, s: Step)
    requires Inv(m) && s.CSaveBump? && Enabled(m, s)
    ensures Inv(Apply(m, s))
  {
    SaveBumpFits(m, s);
    RaisedKeepsBroadcaster(m, Apply(m, s), s.id, s.aid);
  }

  lemma ResubmitKeepsInv(m: Machine, s: Step)
    requires Inv(m) && s.CResubmit? && Enabled(m, s)
    ensures Inv(Apply(m, s))
  {
    var m' := Apply(m, s);
    forall other | other in m.db.attempts && other != s.aid && m.db.attempts[other].txId == s.id
      ensures m.db.attempts[other].fee < m.db.attempts[s.aid].fee && m.db.attempts[other].state != AttemptInProgress
    {
      assert AttemptOf(m.db, other, s.id);
      assert Siblings(m.db, s.aid, other);
    }
    NewAttemptFits(m.db, s.aid, m.db.attempts[s.aid]);
    RaisedKeepsBroadcaster(m, m', s.id, s.aid);
  }

  lemma ConfirmerReplaceFits(m: Machine, s: Step)
    requires Inv(m) && s.CReplace? && Enabled(m, s)
    ensures AttemptsFit(Apply(m, s).db) && Raised(m.db, Apply(m, s).db, m.c.id, s.aid)
  {
    ReplacementFits(m.db, m.c.aid, s.aid, Attempt(m.c.id, AttemptInProgress, s.fee, s.isPurge));
  }

  lemma ReplacedIsFine(m: Machine, s: Step)
    requires Inv(m) && s.CReplace? && Enabled(m, s)
    ensures ConfirmerIsFine(Apply(m, s).db, Apply(m, s).c)
  {
    assert forall other :: Siblings(m.db, m.c.aid, other) && m.db.attempts[other].state == AttemptInProgress ==>
        other == m.c.aid;
  }

  lemma ConfirmerReplaceKeepsInv(m: Machine, s: Step)
    requires Inv(m) && s.CReplace? && Enabled(m, s)
    ensures Inv(Apply(m, s))
  {
    ConfirmerReplaceFits(m, s);
    ReplacedIsFine(m, s);
    RaisedKeepsBroadcaster(m, Apply(m, s), m.c.id, s.aid);
  }

  lemma ReorgFits(m: Machine)
    requires Inv(m) && m.c.CReorg?
    ensures AttemptsFit(UpdateTxsForRebroadcast(m.db, m.c.reorged, m.c.tops))
  {
    var db' := UpdateTxsForRebroadcast(m.db, m.c.reorged, m.c.tops);
    assert forall x, y :: Siblings(db', x, y) <==> Siblings(m.db, x, y);
    assert forall id :: IsInState(db', id, InProgress) <==> IsInState(m.db, id, InProgress);
    forall aid, other | Siblings(db', aid, other) && db'.attempts[aid].state == AttemptInProgress
      ensures db'.attempts[other].fee <= db'.attempts[aid].fee
    {
      assert Siblings(m.db, aid, other);
      if aid in m.c.tops {
        assert AttemptOf(m.db, other, m.db.attempts[aid].txId);
      }
    }
    forall id | IsInState(db', id, InProgress) ensures HasInProgressAttempt(db', id) {
      assert IsInState(m.db, id, InProgress);
      var held :| held in m.db.attempts && InProgressAttemptOf(m.db, held, id);
      assert InProgressAttemptOf(db', held, id);
    }
  }

  lemma ReorgKeepsInv(m: Machine, s: Step)
    requires Inv(m) && s.CApplyReorg? && Enabled(m, s)
    ensures Inv(Apply(m, s))
  {
    var m' := Apply(m, s);
    ReorgFits(m);
    SameHoldersKeepSequences(m, m');
  }

  lemma IncludedKeepsInv(m: Machine, s: Step)
    requires Inv(m) && Enabled(m, s) && (s.CApplyPurged? || s.CApplyConfirmed?)
    ensures Inv(Apply(m, s))
  {
    var m' := Apply(m, s);
    assert SameHolders(m.db, m'.db);
    SameHoldersKeepSequences(m, m');
    RestatedFits(m.db, m'.db);
  }

  lemma RaiseKeepsInv(m: Machine, s: Step)
    requires Inv(m) && Enabled(m, s) && (s.CSaveStuck? || s.CSaveBump? || s.CResubmit? || s.CReplace?)
    ensures Inv(Apply(m, s))
  {
    if s.CSaveStuck? {
      SaveStuckKeepsInv(m, s);
    } else if s.CSaveBump? {
      SaveBumpKeepsInv(m, s);
    } else if s.CResubmit? {
      ResubmitKeepsInv(m, s);
    } else {
      ConfirmerReplaceKeepsInv(m, s);
    }
  }

  lemma ConfirmerKeepsInv(m: Machine, s: Step)
    requires Inv(m) && OfConfirmer(s) && Enabled(m, s)
    ensures Inv(Apply(m, s))
  {
    if s.CSaveSent? || s.CSaveConfirmed? || s.CSaveInsufficient? || s.CDelete? {
      SettleKeepsInv(m, s);
    } else if s.CSaveStuck? || s.CSaveBump? || s.CResubmit? || s.CReplace? {
      RaiseKeepsInv(m, s);
    } else if s.CApplyReorg? {
      ReorgKeepsInv(m, s);
    } else if s.CApplyPurged? || s.CApplyConfirmed? {
      IncludedKeepsInv(m, s);
    } else {
      FindKeepsInv(m, s);
    }
  }

  /** Steps that only move the Confirmer. */
  predicate OnlyMovesConfirmer(s: Step) {
    || s.CFindReorg? || s.CFindIncluded? || s.CFindLeftovers? || s.CTakeLeftover? || s.CFindBumps?
    || s.CFail? || s.CDone?
  }

  lemma FindKeepsInv(m: Machine, s: Step)
    requires Inv(m) && Enabled(m, s)
    requires OnlyMovesConfirmer(s)
    ensures Inv(Apply(m, s))
  {
    FoundFits(m, s);
  }

  ghost predicate ConfirmerIsFine(db: Db, c: ConfirmerAt) {
    ConfirmerFits(db, c) && ConfirmerHolds(db, c)
  }

  lemma TakenFits(m: Machine, s: Step)
    requires Enabled(m, s) && s.CTakeLeftover? && ConfirmerIsFine(m.db, m.c)
    ensures ConfirmerIsFine(m.db, Apply(m, s).c)
  {
  }

  lemma UnconfirmedFits(m: Machine, s: Step)
    requires Enabled(m, s) && (s.CFindIncluded? || s.CFindBumps?) && StatesFit(m.db) && ConfirmerIsFine(m.db, m.c)
    ensures ConfirmerIsFine(m.db, Apply(m, s).c)
  {
    assert forall id :: IsInState(m.db, id, Unconfirmed) ==> IsSent(m.db, id);
  }

  lemma FoundFits(m: Machine, s: Step)
    requires Enabled(m, s) && StatesFit(m.db) && ConfirmerIsFine(m.db, m.c)
    requires OnlyMovesConfirmer(s)
    ensures ConfirmerIsFine(m.db, Apply(m, s).c)
  {
    match s
    case CFindIncluded(_) => UnconfirmedFits(m, s);
    case CFindBumps(_) => UnconfirmedFits(m, s);
    case CTakeLeftover(_) => TakenFits(m, s);
    case _ =>
  }

  /** Adding or removing an unstarted transaction. */
  lemma RequestFits(db: Db, db': Db, id: TxId)
    requires AttemptsFit(db) && StatesFit(db) && db'.attempts == db.attempts
    requires id in db.txs ==> db.txs[id].state == Unstarted
    requires id in db'.txs ==> db'.txs[id] == Tx(Unstarted, None)
    requires forall other :: other != id ==> (other in db'.txs <==> other in db.txs)
    requires forall other :: other != id && other in db.txs ==> db'.txs[other] == db.txs[other]
    ensures AttemptsFit(db') && StatesFit(db') && SentUntouched(db, db')
    ensures forall other :: IsInState(db', other, InProgress) <==> IsInState(db, other, InProgress)
  {
    assert forall other :: IsInState(db', other, InProgress) <==> IsInState(db, other, InProgress);
    assert forall x :: x in db.attempts ==> db.attempts[x].txId != id;
    assert forall x, y :: Siblings(db', x, y) <==> Siblings(db, x, y);
    assert forall other :: IsSent(db', other) <==> IsSent(db, other);
    forall other | IsInState(db', other, InProgress) ensures HasInProgressAttempt(db', other) {
      assert IsInState(db, other, InProgress);
      var held :| held in db.attempts && InProgressAttemptOf(db, held, other);
      assert InProgressAttemptOf(db', held, other);
    }
  }

  lemma RequestsKeepInv(m: Machine, s: Step)
    requires Inv(m) && Enabled(m, s) && (s.Create? || s.Prune?)
    ensures Inv(Apply(m, s))
  {
    var m' := Apply(m, s);
    RequestFits(m.db, m'.db, s.id);
    OthersKeepHolders(m.db, m'.db, s.id, m.base, Top(m));
    UntouchedKeepsConfirmer(m.db, m'.db, m.c);
  }

  lemma FinalizeKeepsInv(m: Machine, s: Step)
    requires Inv(m) && Enabled(m, s) && s.Finalize?
    ensures Inv(Apply(m, s))
  {
    var m' := Apply(m, s);
    assert SameHolders(m.db, m'.db);
    SameHoldersKeepSequences(m, m');
    RestatedFits(m.db, m'.db);
    FinalizeKeepsConfirmer(m.db, m'.db, m.c);
  }

  lemma FinalizeKeepsConfirmer(db: Db, db': Db, c: ConfirmerAt)
    requires SameHolders(db, db') && db'.attempts == db.attempts
    requires forall id :: IsInState(db', id, Unconfirmed) ==> IsInState(db, id, Unconfirmed)
    requires ConfirmerFits(db, c) && ConfirmerHolds(db, c)
    ensures ConfirmerFits(db', c) && ConfirmerHolds(db', c)
  {
    assert forall id :: IsSent(db, id) ==> IsSent(db', id);
    if c.CReorg? {
      forall aid | aid in c.tops ensures TopAttempt(db', aid, db.attempts[aid].txId) {
        assert forall other :: AttemptOf(db', other, db.attempts[aid].txId) <==>
            AttemptOf(db, other, db.attempts[aid].txId);
      }
    }
  }

  lemma StepKeepsInv(m: Machine, s: Step)
    requires Inv(m) && Enabled(m, s)
    ensures Inv(Apply(m, s))
  {
    if OfBroadcaster(s) {
      BroadcasterKeepsInv(m, s);
    } else if OfConfirmer(s) {
      ConfirmerKeepsInv(m, s);
    } else if s.Finalize? {
      FinalizeKeepsInv(m, s);
    } else {
      RequestsKeepInv(m, s);
    }
  }

  // ----- whole runs -----

  /** An address that was never used. */
  predicate Init(m: Machine) {
    m.db == Db(map[], map[]) && m.next == m.base && m.b.BIdle? && m.c.CIdle?
  }

  ghost predicate Safe(m: Machine) {
    && GapFree(m.db, m.base, Top(m))
    && OneInProgress(m.db, Top(m))
    && (m.b.BSent? ==> NoneInProgress(m.db))
    && OneInProgressAttempt(m.db)
    && (forall id :: IsInState(m.db, id, InProgress) ==> HasInProgressAttempt(m.db, id))
  }

  lemma {:induction false} RunKeepsInv(m: Machine, run: seq<Step>)
    requires Inv(m) && Exec(m, run).Some?
    ensures Inv(Exec(m, run).value)
  {
    if run != [] {
      RunKeepsInv(m, run[..|run| - 1]);
      StepKeepsInv(Exec(m, run[..|run| - 1]).value, run[|run| - 1]);
    }
  }

  lemma InvIsSafe(m: Machine)
    requires Inv(m)
    ensures Safe(m)
  {
    forall id, aid, other | InProgressAttemptOf(m.db, aid, id) && InProgressAttemptOf(m.db, other, id)
      ensures aid == other
    {
      assert Siblings(m.db, aid, other) && Siblings(m.db, other, aid);
    }
  }

  /** Over every interleaving of the Broadcaster, the Confirmer, new requests, failures and restarts:
      broadcast sequences are distinct and gap-free up to the tracker's next one, which the at most one
      in_progress transaction holds together with a saved attempt, and no transaction ever has two
      attempts in progress. */
  lemma {:induction false} RunsAreSafe(m: Machine, run: seq<Step>)
    requires Init(m) && Exec(m, run).Some?
    ensures Safe(Exec(m, run).value)
  {
    RunKeepsInv(m, run);
    InvIsSafe(Exec(m, run).value);
  }

  /** The transaction was created and not pruned since. */
  predicate IsRequested(run: seq<Step>, id: TxId) {
    && run != []
    && var last := run[|run| - 1];
       if last == Create(id) then true else if last == Prune(id) then false else IsRequested(run[..|run| - 1], id)
  }

  lemma StepKeepsIds(m: Machine, s: Step)
    requires Inv(m) && Enabled(m, s)
    ensures Apply(m, s).db.txs.Keys ==
              match s
              case Create(id) => m.db.txs.Keys + {id}
              case Prune(id) => m.db.txs.Keys - {id}
              case _ => m.db.txs.Keys
  {
  }

  /** Nothing is lost and nothing is made up: after every run the store holds exactly the transactions that were
      created and not pruned since. */
  lemma {:induction false} NothingIsLost(m: Machine, run: seq<Step>, id: TxId)
    requires Init(m) && Exec(m, run).Some?
    ensures id in Exec(m, run).value.db.txs <==> IsRequested(run, id)
  {
    if run != [] {
      NothingIsLost(m, run[..|run| - 1], id);
      RunKeepsInv(m, run[..|run| - 1]);
      StepKeepsIds(Exec(m, run[..|run| - 1]).value, run[|run| - 1]);
    }
  }

  lemma BroadcasterKeepsSent(m: Machine, s: Step, id: TxId)
    requires Inv(m) && Enabled(m, s) && OfBroadcaster(s) && IsSent(m.db, id)
    ensures IsSent(Apply(m, s).db, id) && Apply(m, s).db.txs[id].sequence == m.db.txs[id].sequence
    ensures Top(m) <= Top(Apply(m, s))
  {
    if s.Restart? {
      LoadedIsTop(m.db, m.base, Top(m), s.loaded);
    }
  }

  lemma OthersKeepSent(m: Machine, s: Step, id: TxId)
    requires Inv(m) && Enabled(m, s) && !OfBroadcaster(s) && IsSent(m.db, id)
    ensures IsSent(Apply(m, s).db, id) && Apply(m, s).db.txs[id].sequence == m.db.txs[id].sequence
    ensures Top(m) <= Top(Apply(m, s))
  {
  }

  lemma StepKeepsSent(m: Machine, s: Step, id: TxId)
    requires Inv(m) && Enabled(m, s) && IsSent(m.db, id)
    ensures IsSent(Apply(m, s).db, id) && Apply(m, s).db.txs[id].sequence == m.db.txs[id].sequence
    ensures Top(m) <= Top(Apply(m, s))
  {
    if OfBroadcaster(s) {
      BroadcasterKeepsSent(m, s, id);
    } else {
      OthersKeepSent(m, s, id);
    }
  }

  /** A broadcast transaction keeps its sequence through every later step, and the next sequence never goes back. */
  lemma {:induction false} SentIsForever(m: Machine, run: seq<Step>, id: TxId)
    requires Inv(m) && Exec(m, run).Some? && IsSent(m.db, id)
    ensures var m' := Exec(m, run).value;
            IsSent(m'.db, id) && m'.db.txs[id].sequence == m.db.txs[id].sequence && Top(m) <= Top(m')
  {
    if run != [] {
      SentIsForever(m, run[..|run| - 1], id);
      RunKeepsInv(m, run[..|run| - 1]);
      StepKeepsSent(Exec(m, run[..|run| - 1]).value, run[|run| - 1], id);
    }
  }

  lemma {:induction false} RunKeepsConfig(m: Machine, run: seq<Step>)
    requires Exec(m, run).Some?
    ensures Exec(m, run).value.base == m.base && Exec(m, run).value.maxInFlight == m.maxInFlight
  {
    if run != [] {
      RunKeepsConfig(m, run[..|run| - 1]);
      ApplyKeepsConfig(Exec(m, run[..|run| - 1]).value, run[|run| - 1]);
    }
  }

  /** Sequences only go up: a transaction broadcast in a later run has a higher one than every transaction broadcast
      before. */
  lemma {:induction false} LaterIsHigher(m: Machine, run: seq<Step>, id: TxId, earlier: TxId)
    requires Inv(m) && Exec(m, run).Some? && IsSent(m.db, earlier)
    requires !IsSent(m.db, id) && IsSent(Exec(m, run).value.db, id)
    ensures m.db.txs[earlier].sequence.value < Exec(m, run).value.db.txs[id].sequence.value
  {
    var m' := Exec(m, run).value;
    RunKeepsInv(m, run);
    RunKeepsConfig(m, run);
    SentIsForever(m, run, earlier);
    if m'.db.txs[id].sequence.value < Top(m) {
      HolderStays(m, run, id);
    }
  }

  /** A sequence below the next one stays with the transaction that holds it. */
  lemma {:induction false} HolderStays(m: Machine, run: seq<Step>, id: TxId)
    requires Inv(m) && Exec(m, run).Some? && IsSent(Exec(m, run).value.db, id)
    requires m.base <= Exec(m, run).value.db.txs[id].sequence.value < Top(m)
    ensures IsSent(m.db, id)
  {
    var m' := Exec(m, run).value;
    var q := m'.db.txs[id].sequence.value;
    assert Holder(m.db, q);
    var holder :| IsSent(m.db, holder) && m.db.txs[holder].sequence == Some(q);
    RunKeepsInv(m, run);
    SentIsForever(m, run, holder);
  }

  /** A fatal error before broadcast frees the sequence: nothing holds the tracker's next one afterwards,
      and the next transaction picked gets it again. */
  lemma FatalFreesSequence(m: Machine, id: TxId)
    requires Inv(m) && Enabled(m, BFatal)
    ensures var m' := Apply(m, BFatal);
            && m'.next == m.b.sequence
            && (forall x :: x in m'.db.txs ==> m'.db.txs[x].sequence != Some(m'.next))
            && (IsInState(m'.db, id, Unstarted) && Enabled(m', BCount)
                ==> Apply(Apply(m', BCount), BPick(id)).b == BPicked(id, m.b.sequence))
  {
    FatalKeepsInv(m, BFatal);
    NobodyHoldsNext(Apply(m, BFatal));
    PickGetsNext(Apply(m, BFatal), id);
  }

  lemma PickGetsNext(m: Machine, id: TxId)
    ensures IsInState(m.db, id, Unstarted) && Enabled(m, BCount) ==> Enabled(Apply(m, BCount), BPick(id))
    ensures IsInState(m.db, id, Unstarted) && Enabled(m, BCount) ==>
              Apply(Apply(m, BCount), BPick(id)).b == BPicked(id, m.next)
  {
  }

  lemma NobodyHoldsNext(m: Machine)
    requires Inv(m) && m.b.BLoop?
    ensures forall x :: x in m.db.txs ==> m.db.txs[x].sequence != Some(m.next)
  {
    forall x | x in m.db.txs ensures m.db.txs[x].sequence != Some(m.next) {
      assert IsSent(m.db, x) || IsInState(m.db, x, InProgress) || m.db.txs[x].sequence.None?;
    }
  }

  /** Why a restart must not count the in_progress transaction as broadcast: if the tracker reloads one above
      it and the transaction then fails fatally, the next broadcast leaves a sequence nobody holds. */
  lemma ReloadAboveInProgressLeavesGap(m: Machine, id: TxId, aid: AttemptId, fee: int)
    requires Inv(m) && m.b.BSending?
    requires id != m.b.id && IsInState(m.db, id, Unstarted) && aid !in m.db.attempts && m.maxInFlight == 0
    ensures var reloaded := m.(next := m.next + 1);
            var after := Exec(reloaded, [BFatal, BCount, BPick(id), BStart(aid, fee), BBroadcast]);
            && after.Some?
            && Holder(after.value.db, m.next + 1) && !Holder(after.value.db, m.next)
            && forall top :: !GapFree(after.value.db, m.base, top)
  {
    ReloadedRun(m.(next := m.next + 1), id, aid, fee);
    var after := Exec(m.(next := m.next + 1), [BFatal, BCount, BPick(id), BStart(aid, fee), BBroadcast]).value;
    SkippedSequence(m.db, after.db, id, m.base, m.next);
  }

  /** Up to the pick, only the transaction that failed has changed. */
  lemma AfterFatal(m: Machine, id: TxId)
    requires m.b.BSending? && m.b.id != id && IsInState(m.db, id, Unstarted) && m.maxInFlight == 0
    ensures Enabled(m, BFatal) && Enabled(Apply(m, BFatal), BCount)
    ensures Enabled(Apply(Apply(m, BFatal), BCount), BPick(id))
    ensures var m3 := Apply(Apply(Apply(m, BFatal), BCount), BPick(id));
            && m3.db == UpdateTxFatalErrorAndDeleteAttempts(m.db, m.b.id)
            && m3.b == BPicked(id, m.next) && id in m3.db.txs
            && (forall x :: IsSent(m3.db, x) ==> IsSent(m.db, x) && m3.db.txs[x] == m.db.txs[x])
            && (forall aid :: aid !in m.db.attempts ==> aid !in m3.db.attempts)
  {
  }

  lemma StartAndBroadcast(m: Machine, aid: AttemptId, fee: int)
    requires m.b.BPicked? && m.b.id in m.db.txs && aid !in m.db.attempts
    ensures Enabled(m, BStart(aid, fee)) && Enabled(Apply(m, BStart(aid, fee)), BBroadcast)
    ensures var after := Apply(Apply(m, BStart(aid, fee)), BBroadcast);
            && IsSent(after.db, m.b.id) && after.db.txs[m.b.id].sequence == Some(m.b.sequence)
            && (forall x :: IsSent(after.db, x) && x != m.b.id ==> IsSent(m.db, x) && after.db.txs[x] == m.db.txs[x])
  {
  }

  lemma ReloadedRun(m: Machine, id: TxId, aid: AttemptId, fee: int)
    requires m.b.BSending? && m.b.id != id && IsInState(m.db, id, Unstarted) && aid !in m.db.attempts
    requires m.maxInFlight == 0
    ensures var after := Exec(m, [BFatal, BCount, BPick(id), BStart(aid, fee), BBroadcast]);
            && after.Some?
            && IsSent(after.value.db, id) && after.value.db.txs[id].sequence == Some(m.next)
            && (forall x :: IsSent(after.value.db, x) && x != id ==>
                  IsSent(m.db, x) && after.value.db.txs[x] == m.db.txs[x])
  {
    AfterFatal(m, id);
    StartAndBroadcast(Apply(Apply(Apply(m, BFatal), BCount), BPick(id)), aid, fee);
    ExecFive(m, BFatal, BCount, BPick(id), BStart(aid, fee), BBroadcast);
  }

  lemma SkippedSequence(db: Db, db': Db, id: TxId, base: int, next: int)
    requires GapFree(db, base, next) && IsSent(db', id) && db'.txs[id].sequence == Some(next + 1)
    requires forall x :: IsSent(db', x) && x != id ==> IsSent(db, x) && db'.txs[x] == db.txs[x]
    ensures Holder(db', next + 1) && !Holder(db', next)
    ensures forall top :: !GapFree(db', base, top)
  {
    forall top ensures !GapFree(db', base, top) {
      if base <= next < top {
        assert !Holder(db', next);
      }
    }
  }

  lemma ExecFive(m: Machine, s1: Step, s2: Step, s3: Step, s4: Step, s5: Step)
    requires Enabled(m, s1) && Enabled(Apply(m, s1), s2) && Enabled(Apply(Apply(m, s1), s2), s3)
    requires var m3 := Apply(Apply(Apply(m, s1), s2), s3); Enabled(m3, s4) && Enabled(Apply(m3, s4), s5)
    ensures var m3 := Apply(Apply(Apply(m, s1), s2), s3);
            Exec(m, [s1, s2, s3, s4, s5]) == Some(Apply(Apply(m3, s4), s5))
  {
    assert [] + [s1] == [s1] && [s1] + [s2] == [s1, s2] && [s1, s2] + [s3] == [s1, s2, s3];
    assert [s1, s2, s3] + [s4] == [s1, s2, s3, s4] && [s1, s2, s3, s4] + [s5] == [s1, s2, s3, s4, s5];
    ExecExtends(m, [], s1);
    ExecExtends(m, [s1], s2);
    ExecExtends(m, [s1, s2], s3);
    ExecExtends(m, [s1, s2, s3], s4);
    ExecExtends(m, [s1, s2, s3, s4], s5);
  }

  /** ProcessStuckTransactions saves a purge attempt without looking for one in progress, so "one per
      transaction" survives it exactly when the detector names a transaction that has none. */
  lemma StuckSaveKeepsOneIff(db: Db, id: TxId, aid: AttemptId, fee: int)
    requires OneInProgressAttempt(db) && aid !in db.attempts
    ensures OneInProgressAttempt(SaveInProgressAttempt(db, aid, Attempt(id, AttemptInProgress, fee, true)))
            <==> !HasInProgressAttempt(db, id)
  {
    var db' := SaveInProgressAttempt(db, aid, Attempt(id, AttemptInProgress, fee, true));
    assert InProgressAttemptOf(db', aid, id);
    if HasInProgressAttempt(db, id) {
      var held :| held in db.attempts && InProgressAttemptOf(db, held, id);
      assert InProgressAttemptOf(db', held, id);
    } else {
      forall x, a, b | InProgressAttemptOf(db', a, x) && InProgressAttemptOf(db', b, x) ensures a == b {
        assert a != aid ==> InProgressAttemptOf(db, a, x);
        assert b != aid ==> InProgressAttemptOf(db, b, x);
      }
    }
  }

  lemma Then(m: Machine, run: seq<Step>, now: Machine, s: Step) returns (run': seq<Step>, next: Machine)
    requires Exec(m, run) == Some(now) && Enabled(now, s)
    ensures next == Apply(now, s) && Exec(m, run') == Some(next)
  {
    ExecExtends(m, run, s);
    run', next := run + [s], Apply(now, s);
  }

  /** One transaction with one attempt. */
  function OneTx(state: TxState, sequence: int, attempt: AttemptState): Db {
    Db(map[1 := Tx(state, Some(sequence))], map[1 := Attempt(1, attempt, 0, false)])
  }

  lemma OneCreated(m: Machine) returns (run: seq<Step>, now: Machine)
    requires Init(m)
    ensures Exec(m, run) == Some(now) && now == m.(db := Db(map[1 := Tx(Unstarted, None)], map[]), b := BLoop)
  {
    run, now := Then(m, [], m, Create(1));
    run, now := Then(m, run, now, BNothingInProgress);
  }

  lemma OnePicked(m: Machine) returns (run: seq<Step>, now: Machine)
    requires Init(m)
    ensures Exec(m, run) == Some(now)
    ensures now == m.(db := Db(map[1 := Tx(Unstarted, None)], map[]), b := BPicked(1, m.base))
  {
    run, now := OneCreated(m);
    assert WithState(now.db, Unconfirmed) == {};
    run, now := Then(m, run, now, BCount);
    run, now := Then(m, run, now, BPick(1));
  }

  lemma OneStarted(m: Machine) returns (run: seq<Step>, now: Machine)
    requires Init(m)
    ensures Exec(m, run) == Some(now)
    ensures now == m.(db := OneTx(InProgress, m.base, AttemptInProgress), b := BSending(1, m.base, 1))
  {
    run, now := OnePicked(m);
    run, now := Then(m, run, now, BStart(1, 0));
  }

  lemma OneBroadcast(m: Machine) returns (run: seq<Step>, now: Machine)
    requires Init(m)
    ensures Exec(m, run) == Some(now) && now.c.CIdle? && now.db == OneTx(Unconfirmed, m.base, AttemptBroadcast)
  {
    run, now := OneStarted(m);
    run, now := Then(m, run, now, BBroadcast);
    assert now.db == OneTx(Unconfirmed, m.base, AttemptBroadcast);
    run, now := Then(m, run, now, BGenerate);
  }

  lemma OneFound(m: Machine) returns (run: seq<Step>, now: Machine)
    requires Init(m)
    ensures Exec(m, run) == Some(now) && now.c == CIncluded({}, {1})
    ensures now.db == OneTx(Unconfirmed, m.base, AttemptBroadcast)
  {
    run, now := OneBroadcast(m);
    assert !HasPurgeAttempt(now.db, 1);
    run, now := Then(m, run, now, CFindIncluded({1}));
    assert now.c == CIncluded({}, {1});
  }

  lemma OneConfirmed(m: Machine) returns (run: seq<Step>, now: Machine)
    requires Init(m)
    ensures Exec(m, run) == Some(now) && now.c.CIdle? && now.db == OneTx(Confirmed, m.base, AttemptBroadcast)
  {
    run, now := OneFound(m);
    run, now := Then(m, run, now, CApplyPurged);
    assert now.db == OneTx(Unconfirmed, m.base, AttemptBroadcast) && now.c == CConfirming({1});
    run, now := Then(m, run, now, CApplyConfirmed);
    assert now.db == OneTx(Confirmed, m.base, AttemptBroadcast);
  }

  lemma OneIsReorged(db: Db, id: TxId, aid: AttemptId, ids: set<TxId>, tops: set<AttemptId>)
    requires IsSent(db, id) && db.txs[id].state != Unconfirmed && TopAttempt(db, aid, id)
    requires ids == {id} && tops == {aid}
    ensures AreReorged(db, ids, tops)
  {
    forall x | x in ids
      ensures IsSent(db, x) && db.txs[x].state != Unconfirmed && exists a | a in tops :: TopAttempt(db, a, x)
    {
      assert aid in tops && TopAttempt(db, aid, x);
    }
  }

  lemma OneReorgFound(m: Machine) returns (run: seq<Step>, now: Machine)
    requires Init(m)
    ensures Exec(m, run) == Some(now) && now.c == CReorg({1}, {1})
    ensures now.db == OneTx(Confirmed, m.base, AttemptBroadcast)
  {
    run, now := OneConfirmed(m);
    assert TopAttempt(now.db, 1, 1) && IsSent(now.db, 1);
    OneIsReorged(now.db, 1, 1, {1}, {1});
    run, now := Then(m, run, now, CFindReorg({1}, {1}));
  }

  lemma OneReorged(m: Machine) returns (run: seq<Step>, now: Machine)
    requires Init(m)
    ensures Exec(m, run) == Some(now) && now.c.CIdle? && now.db == OneTx(Unconfirmed, m.base, AttemptInProgress)
  {
    run, now := OneReorgFound(m);
    run, now := Then(m, run, now, CApplyReorg);
    assert now.db == OneTx(Unconfirmed, m.base, AttemptInProgress);
  }

  /** The case arises: after a broadcast, a confirmation and a re-org the Confirmer is idle and an unconfirmed
      transaction has an attempt in progress; a purge attempt saved for it now is its second one. */
  lemma {:induction false} StuckCaseArises(m: Machine)
    requires Init(m)
    ensures exists run :: Exec(m, run).Some? && IsStuckCase(Exec(m, run).value)
  {
    var run, now := OneReorged(m);
    ReorgedIsStuckCase(now, m.base);
  }

  lemma ReorgedIsStuckCase(m: Machine, sequence: int)
    requires m.c.CIdle? && m.db == OneTx(Unconfirmed, sequence, AttemptInProgress)
    ensures IsStuckCase(m)
  {
    assert InProgressAttemptOf(m.db, 1, 1) && HasInProgressAttempt(m.db, 1) && OneInProgressAttempt(m.db);
    forall aid, fee | aid !in m.db.attempts
      ensures !OneInProgressAttempt(SaveInProgressAttempt(m.db, aid, Attempt(1, AttemptInProgress, fee, true)))
    {
      StuckSaveKeepsOneIff(m.db, 1, aid, fee);
    }
    assert IsInState(m.db, 1, Unconfirmed);
  }

  ghost predicate IsStuckCase(m: Machine) {
    && m.c.CIdle?
    && exists id :: IsInState(m.db, id, Unconfirmed) && HasInProgressAttempt(m.db, id)
         && forall aid, fee :: aid !in m.db.attempts ==>
              !OneInProgressAttempt(SaveInProgressAttempt(m.db, aid, Attempt(id, AttemptInProgress, fee, true)))
  }

  // ----- the in-flight limit -----

  /** With the limit on, unconfirmed and in_progress transactions together stay within it; past the check,
      there is room for one more. */
  ghost predicate WithinLimit(m: Machine) {
    && CountState(m.db, Unconfirmed) + CountState(m.db, InProgress) <= m.maxInFlight
    && (m.b.BAllowed? || m.b.BPicked? ==> CountState(m.db, Unconfirmed) < m.maxInFlight)
  }

  lemma SubsetCounts(a: set<TxId>, b: set<TxId>)
    requires a <= b
    ensures |a| <= |b|
  {
    assert a + (b - a) == b;
  }

  /** Only starting, broadcasting and re-orgs put a transaction in flight. */
  lemma OthersAddNothing(m: Machine, s: Step)
    requires Enabled(m, s) && !s.BStart? && !s.BBroadcast? && !s.CApplyReorg?
    ensures WithState(Apply(m, s).db, Unconfirmed) <= WithState(m.db, Unconfirmed)
    ensures WithState(Apply(m, s).db, InProgress) <= WithState(m.db, InProgress)
  {
  }

  lemma StartTakesRoom(m: Machine, s: Step)
    requires Inv(m) && Enabled(m, s) && s.BStart?
    ensures CountState(m.db, InProgress) == 0 && CountState(Apply(m, s).db, InProgress) == 1
    ensures CountState(Apply(m, s).db, Unconfirmed) == CountState(m.db, Unconfirmed)
  {
    var db' := Apply(m, s).db;
    assert WithState(m.db, InProgress) == {};
    assert WithState(db', InProgress) == {m.b.id};
    assert WithState(db', Unconfirmed) == WithState(m.db, Unconfirmed);
  }

  lemma BroadcastKeepsRoom(m: Machine, s: Step)
    requires Inv(m) && Enabled(m, s) && s.BBroadcast?
    ensures CountState(m.db, InProgress) == 1 && CountState(Apply(m, s).db, InProgress) == 0
    ensures CountState(Apply(m, s).db, Unconfirmed) == CountState(m.db, Unconfirmed) + 1
  {
    var db' := Apply(m, s).db;
    assert WithState(m.db, InProgress) == {m.b.id};
    assert WithState(db', InProgress) == {};
    assert WithState(db', Unconfirmed) == WithState(m.db, Unconfirmed) + {m.b.id};
  }

  lemma StepKeepsLimit(m: Machine, s: Step)
    requires Inv(m) && Enabled(m, s) && m.maxInFlight > 0 && WithinLimit(m) && !s.CApplyReorg?
    ensures WithinLimit(Apply(m, s))
  {
    if s.BStart? {
      StartTakesRoom(m, s);
    } else if s.BBroadcast? {
      BroadcastKeepsRoom(m, s);
    } else {
      OthersAddNothing(m, s);
      var db' := Apply(m, s).db;
      SubsetCounts(WithState(db', Unconfirmed), WithState(m.db, Unconfirmed));
      SubsetCounts(WithState(db', InProgress), WithState(m.db, InProgress));
    }
  }

  /** Without re-orgs, no run ever has more than MaxInFlight transactions unconfirmed or in progress. */
  lemma {:induction false} InFlightIsLimited(m: Machine, run: seq<Step>)
    requires Init(m) && Exec(m, run).Some? && m.maxInFlight > 0
    requires forall s :: s in run ==> !s.CApplyReorg?
    ensures WithinLimit(Exec(m, run).value) && Exec(m, run).value.maxInFlight == m.maxInFlight
  {
    if run == [] {
      assert WithState(m.db, Unconfirmed) == {} && WithState(m.db, InProgress) == {};
    } else {
      InFlightIsLimited(m, run[..|run| - 1]);
      RunKeepsInv(m, run[..|run| - 1]);
      StepKeepsLimit(Exec(m, run[..|run| - 1]).value, run[|run| - 1]);
    }
  }
}
