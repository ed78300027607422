/** The Confirmer's code for one address (chains/txmgr/confirmer.go), acting on the shared manager.  Scripted as
    the Broadcaster is: one answer per call of the chain client, with what others do meanwhile. */
module Confirming {
  import opened Wrappers
  import opened TxStore
  import opened TxProtocol
  import opened TxManager
  import opened ReturnCodes
  import opened Rebroadcast

  datatype Bump =
    | NewAttempt(aid: AttemptId, fee: int)
    | BumpError          // fees.IsBumpErr: over the limit, not increased, or no connectivity
    | OtherError

  datatype Answer = Answer(
    others: seq<Step>,
    code: SendTxReturnCode,
    bump: Bump,                 // what the attempt builder answers
    stored: bool,               // whether the store accepts the update
    cancelled: bool)            // whether the context is done by now

  /** The update that ends the handling of an attempt, if the answer ends it. */
  function SettleStep(code: SendTxReturnCode): Option<Step> {
    match code
    case Successful => Some(CSaveSent)
    case ExceedsMaxFee => Some(CSaveSent)
    case TransactionAlreadyKnown => Some(CSaveConfirmed)
    case InsufficientFunds => Some(CSaveInsufficient)
    case Fatal => Some(CDelete)
    case _ => None
  }

  lemma SettlingCodes(code: SendTxReturnCode)
    ensures SettleStep(code).Some? <==>
              code in {Successful, ExceedsMaxFee, TransactionAlreadyKnown, InsufficientFunds, Fatal}
  {
  }

  /** Not yet at the bumps of a pass: looking for leftovers, dealing with them, or looking for what to bump. */
  predicate BeforeBumps(c: ConfirmerAt) {
    c.CIdle? || ((c.CAt? || c.CSending?) && c.phase.Leftovers?)
  }

  /** An answer that never makes the Confirmer fail: the store takes the update, the node's code settles the
      attempt, and the builder's answer lets the same attempt be sent again. */
  predicate Favourable(a: Answer) {
    a.stored && SettleStep(a.code).Some? && a.bump.BumpError?
  }

  /** The context is cancelled at most once, and now only in the given phase. */
  ghost predicate DoneOnlyIn(before: Option<ConfirmerAt>, after: Option<ConfirmerAt>, leftovers: bool) {
    (before.Some? ==> after == before) && (before.None? && after.Some? ==> BeforeBumps(after.value) == leftovers)
  }

  /** What the store holds of an attempt and its transaction once the node's code settled it. */
  ghost predicate SettledAs(db: Db, id: TxId, aid: AttemptId, code: SendTxReturnCode) {
    match code
    case Successful => AttemptOf(db, aid, id) && db.attempts[aid].state == AttemptBroadcast
    case ExceedsMaxFee => AttemptOf(db, aid, id) && db.attempts[aid].state == AttemptBroadcast
    case TransactionAlreadyKnown =>
      AttemptOf(db, aid, id) && db.attempts[aid].state == AttemptBroadcast && IsInState(db, id, Confirmed)
    case InsufficientFunds => AttemptOf(db, aid, id) && db.attempts[aid].state == AttemptInsufficientFunds
    case Fatal => aid !in db.attempts
    case _ => false
  }

  /** Only a transaction that the node knows already changes; otherwise it is as it was, or finalized by others. */
  ghost predicate LeavesTx(db: Db, db': Db, id: TxId, code: SendTxReturnCode) {
    code != TransactionAlreadyKnown ==>
      id in db.txs && id in db'.txs && SameOrFinalized(db.txs[id], db'.txs[id])
  }

  /** With one attempt in progress per transaction, settling it leaves none. */
  lemma SettlingLeavesNone(m: Machine, s: Step)
    requires Inv(m) && Enabled(m, s) && (s.CSaveSent? || s.CSaveConfirmed? || s.CSaveInsufficient? || s.CDelete?)
    ensures !HasInProgressAttempt(Apply(m, s).db, m.c.id)
  {
    SettleSettles(m, s);
    var db' := Apply(m, s).db;
    forall aid | aid in db'.attempts ensures !InProgressAttemptOf(db', aid, m.c.id) {
      if InProgressAttemptOf(db', aid, m.c.id) {
        assert aid != m.c.aid;
        assert Siblings(m.db, aid, m.c.aid) && Siblings(m.db, m.c.aid, aid);
      }
    }
  }

  /** The attempt in progress is the highest priced one, and no other is. */
  lemma InProgressIsTop(m: Machine, id: TxId, aid: AttemptId)
    requires Inv(m) && InProgressAttemptOf(m.db, aid, id)
    ensures TopAttempt(m.db, aid, id) && forall top :: TopAttempt(m.db, top, id) ==> top == aid
  {
    forall other | other in m.db.attempts && AttemptOf(m.db, other, id)
      ensures m.db.attempts[other].fee <= m.db.attempts[aid].fee
    {
      assert Siblings(m.db, aid, other);
    }
    forall top | TopAttempt(m.db, top, id)
      ensures top == aid
    {
      assert Siblings(m.db, aid, top) && AttemptOf(m.db, aid, id);
    }
  }

  /** What a replacement has to be: a new attempt above the one in hand. */
  predicate IsReplacement(db: Db, aid: AttemptId, bump: Bump) {
    && bump.NewAttempt? && bump.aid !in db.attempts
    && aid in db.attempts && bump.fee > db.attempts[aid].fee
  }

  /** The node calls for another attempt. */
  predicate CallsForReplacement(code: SendTxReturnCode) {
    code == Underpriced || code == TerminallyStuck
  }

  class Confirmer {
    const txm: Manager
    const script: seq<Answer>
    var pos: nat                               // how many answers are used up
    var ctxDone: bool
    ghost var doneIn: Option<ConfirmerAt>      // where the Confirmer was when the context was cancelled

    constructor (txm: Manager, script: seq<Answer>)
      ensures this.txm == txm && this.script == script && pos == 0 && !ctxDone && Coherent()
    {
      this.txm, this.script, pos, ctxDone, doneIn := txm, script, 0, false, None;
    }

    ghost predicate Coherent()
      reads this
    {
      ctxDone == doneIn.Some?
    }

    method Bail()
      requires txm.Valid()
      modifies txm
      ensures txm.Valid() && txm.raised == old(txm.raised) && txm.c == CIdle && txm.State().db == old(txm.State()).db
    {
      txm.Do(CFail);
    }

    /** Waits for the next answer while the others move. */
    method Ask() returns (a: Answer)
      requires txm.Valid() && Coherent() && pos < |script|
      modifies txm, this`pos, this`ctxDone, this`doneIn
      ensures a == script[old(pos)] && pos == old(pos) + 1
      ensures txm.Valid() && txm.raised == old(txm.raised) && txm.c == old(txm.c)
      ensures OnlyFinalized(old(txm.State()).db, txm.State().db)
      ensures ctxDone == (old(ctxDone) || a.cancelled)
      ensures Coherent() && DoneOnlyIn(old(doneIn), doneIn, BeforeBumps(txm.c))
    {
      a := script[pos];
      pos := pos + 1;
      txm.Yield(TheConfirmer, a.others);
      if a.cancelled && !ctxDone {
        ctxDone, doneIn := true, Some(txm.c);
      }
    }

    /** Further in the script, or at the same position. */
    ghost predicate IsPast(from: nat)
      reads this`pos
    {
      from == pos || from < pos <= |script|
    }

    /** Sends an in-progress attempt, replacing it while the node calls it underpriced or stuck.  No error means
        that the last answer settled it and no attempt of its transaction is left in progress. */
    method HandleInProgressAttempt(id: TxId, aid: AttemptId, phase: Phase) returns (failed: bool, ghost sent: AttemptId)
      requires txm.Valid() && Coherent() && txm.c == CSending(id, aid, phase)
      modifies txm, this`pos, this`ctxDone, this`doneIn
      ensures txm.Valid() && txm.raised == old(txm.raised) && IsPast(old(pos))
      ensures pos == old(pos) ==> pos >= |script|
      ensures Coherent() && DoneOnlyIn(old(doneIn), doneIn, phase.Leftovers?)
      ensures failed ==> txm.c == CIdle
      ensures !failed ==>
                && txm.c == CAt(phase) && !HasInProgressAttempt(txm.State().db, id)
                && old(pos) < pos && script[pos - 1].stored && SettleStep(script[pos - 1].code).Some?
                && SettledAs(txm.State().db, id, sent, script[pos - 1].code)
                && LeavesTx(old(txm.State()).db, txm.State().db, id, script[pos - 1].code)
      ensures failed && old(pos) < pos ==>
                !(script[pos - 1].stored && SettleStep(script[pos - 1].code).Some?)
      ensures AllReplaced(old(pos)) && (failed && old(pos) < pos < |script| ==> IsNotReplaced(sent))
      decreases |script| - pos, 0
    {
      if pos >= |script| {
        Bail();
        return true, aid;
      }
      sent := aid;
      SendingIsSent();
      var a := Ask();
      if SettleStep(a.code).Some? {
        failed := AskedSettle(id, a, old(txm.State()).db);
      } else if a.code == Underpriced || a.code == TerminallyStuck {
        failed, sent := ReplaceAndResend(id, a, phase);
      } else {
        Bail();
        failed := true;
      }
    }

    /** The answer settles the attempt, whatever others finalized since `before`. */
    method AskedSettle(id: TxId, a: Answer, ghost before: Db) returns (failed: bool)
      requires txm.Valid() && txm.c.CSending? && txm.c.id == id && SettleStep(a.code).Some?
      requires IsSent(before, id) && OnlyFinalized(before, txm.State().db)
      modifies txm
      ensures txm.Valid() && failed == !a.stored && txm.raised == old(txm.raised)
      ensures txm.c == if failed then CIdle else CAt(old(txm.c).phase)
      ensures !failed ==>
                && !HasInProgressAttempt(txm.State().db, id)
                && SettledAs(txm.State().db, id, old(txm.c).aid, a.code)
                && LeavesTx(before, txm.State().db, id, a.code)
    {
      failed := Settle(a.stored, a.code);
    }

    /** Every answer but the last led to a stored replacement that the node had called for. */
    ghost predicate AllReplaced(from: nat)
      reads this`pos
    {
      forall k :: from <= k < pos - 1 && k < |script| ==>
        script[k].stored && CallsForReplacement(script[k].code) && script[k].bump.NewAttempt?
    }

    /** If the last answer called for a replacement of the attempt, there was none or the store did not take it. */
    ghost predicate IsNotReplaced(sent: AttemptId)
      requires 0 < pos < |script|
      reads this`pos, txm
    {
      var a := script[pos - 1];
      CallsForReplacement(a.code) ==> !(a.stored && IsReplacement(txm.State().db, sent, a.bump))
    }

    method ReplaceAndResend(id: TxId, a: Answer, phase: Phase) returns (failed: bool, ghost sent: AttemptId)
      requires txm.Valid() && Coherent() && txm.c.CSending? && txm.c.id == id && txm.c.phase == phase
      modifies txm, this`pos, this`ctxDone, this`doneIn
      ensures txm.Valid() && txm.raised == old(txm.raised) && IsPast(old(pos))
      ensures Coherent() && DoneOnlyIn(old(doneIn), doneIn, phase.Leftovers?)
      ensures failed ==> txm.c == CIdle
      ensures !failed ==>
                && txm.c == CAt(phase) && !HasInProgressAttempt(txm.State().db, id)
                && old(pos) < pos && script[pos - 1].stored && SettleStep(script[pos - 1].code).Some?
                && SettledAs(txm.State().db, id, sent, script[pos - 1].code)
                && LeavesTx(old(txm.State()).db, txm.State().db, id, script[pos - 1].code)
      ensures failed && old(pos) < pos ==>
                !(script[pos - 1].stored && SettleStep(script[pos - 1].code).Some?)
      ensures AllReplaced(old(pos)) && (failed && old(pos) < pos < |script| ==> IsNotReplaced(sent))
      ensures old(pos) < pos ==> a.stored && a.bump.NewAttempt?
      ensures failed && pos == old(pos) && pos < |script| ==>
                !(a.stored && IsReplacement(txm.State().db, sent, a.bump))
      decreases |script| - pos, 1
    {
      sent := txm.c.aid;
      failed := Replace(a);
      if !failed {
        failed, sent := HandleInProgressAttempt(id, a.bump.aid, phase);
      }
    }

    lemma SendingIsSent()
      requires txm.Valid() && txm.c.CSending?
      ensures IsSent(txm.State().db, txm.c.id)
    {
      txm.StateFits();
    }

    lemma SettleLeavesNone(code: SendTxReturnCode)
      requires txm.Valid() && txm.c.CSending? && SettleStep(code).Some?
      ensures var s := SettleStep(code).value;
              && Enabled(txm.State(), s)
              && !HasInProgressAttempt(Apply(txm.State(), s).db, txm.c.id)
              && SettledAs(Apply(txm.State(), s).db, txm.c.id, txm.c.aid, code)
              && OthersStay(txm.State().db, Apply(txm.State(), s).db, txm.c.id, txm.c.aid)
    {
      txm.StateFits();
      SettlingLeavesNone(txm.State(), SettleStep(code).value);
    }

    ghost predicate OthersStay(db: Db, db': Db, id: TxId, aid: AttemptId) {
      && (forall other :: other != id ==>
            (other in db'.txs <==> other in db.txs) && (other in db.txs ==> db'.txs[other] == db.txs[other]))
      && (forall other :: other != aid ==>
            && (other in db'.attempts <==> other in db.attempts)
            && (other in db.attempts ==> db'.attempts[other] == db.attempts[other]))
    }

    /** The update a code calls for.  It touches the attempt, the transaction only if the node knows it already, and
        nothing else. */
    method Settle(stored: bool, code: SendTxReturnCode) returns (failed: bool)
      requires txm.Valid() && txm.c.CSending? && SettleStep(code).Some?
      modifies txm
      ensures txm.Valid() && failed == !stored && txm.raised == old(txm.raised)
      ensures failed ==> txm.c == CIdle
      ensures failed ==> txm.State().db == old(txm.State()).db
      ensures !failed ==> txm.c == CAt(old(txm.c).phase) && !HasInProgressAttempt(txm.State().db, old(txm.c).id)
      ensures !failed ==> SettledAs(txm.State().db, old(txm.c).id, old(txm.c).aid, code)
      ensures !failed && code != TransactionAlreadyKnown ==> txm.txs == old(txm.txs)
      ensures !failed ==> OthersStay(old(txm.State()).db, txm.State().db, old(txm.c).id, old(txm.c).aid)
    {
      if stored {
        SettleLeavesNone(code);
        txm.Do(SettleStep(code).value);
      } else {
        Bail();
      }
      failed := !stored;
    }

    /** The check made before a bump never fails. */
    lemma SendingIsTop()
      requires txm.Valid() && txm.c.CSending?
      ensures TopAttempt(txm.State().db, txm.c.aid, txm.c.id)
    {
      txm.StateFits();
      InProgressIsTop(txm.State(), txm.c.id, txm.c.aid);
    }

    /** Underpriced bumps the highest priced attempt, TerminallyStuck puts a purge attempt in its place.  Only an
        error of the builder or the store makes it fail: the attempt in hand always is the highest priced one. */
    method Replace(a: Answer) returns (failed: bool)
      requires txm.Valid() && txm.c.CSending?
      modifies txm
      ensures txm.Valid() && txm.raised == old(txm.raised)
      ensures failed ==> txm.c == CIdle
      ensures !failed ==> a.bump.NewAttempt? && txm.c == old(txm.c).(aid := a.bump.aid) && txm.txs == old(txm.txs)
      ensures !failed ==>
                txm.attempts == (old(txm.attempts) - {old(txm.c).aid})[
                  a.bump.aid := Attempt(old(txm.c).id, AttemptInProgress, a.bump.fee, a.code == TerminallyStuck)]
      ensures failed <==> !(a.stored && IsReplacement(old(txm.State()).db, old(txm.c).aid, a.bump))
      ensures failed ==> txm.State().db == old(txm.State()).db
    {
      SendingIsTop();
      var s := if a.bump.NewAttempt? then CReplace(a.bump.aid, a.bump.fee, a.code == TerminallyStuck) else CFail;
      var isTop := TopAttempt(txm.State().db, txm.c.aid, txm.c.id);
      if a.bump.NewAttempt? && a.stored && (a.code == TerminallyStuck || isTop) && Enabled(txm.State(), s) {
        txm.Do(s);
        return false;
      }
      Bail();
      failed := true;
    }

    /** No unconfirmed transaction has an attempt in progress. */
    ghost predicate NoneLeft()
      reads txm
    {
      forall aid :: aid in txm.attempts && txm.attempts[aid].state == AttemptInProgress ==>
        !IsInState(txm.State().db, txm.attempts[aid].txId, Unconfirmed)
    }

    lemma NoneLeftNow()
      requires txm.Valid() && (txm.c == CAt(Leftovers({})) || txm.c == CAt(Bumps({})))
      ensures NoneLeft()
    {
      txm.StateFits();
    }

    /** The answers ran out, or the last one was not a favourable one. */
    ghost predicate RanOut(from: nat)
      reads this`pos
    {
      pos >= |script| || (from < pos && !Favourable(script[pos - 1]))
    }

    /** Finishes what an earlier pass, a crash or a re-org left in progress.  Without an error and with a live
        context, no unconfirmed transaction has an attempt in progress any more.  An error has a cause. */
    method HandleAnyInProgressAttempts(found: seq<AttemptId>) returns (failed: bool)
      requires txm.Valid() && Coherent() && txm.c == CIdle
      requires forall i, j :: 0 <= i < j < |found| ==> found[i] != found[j]
      modifies txm, this`pos, this`ctxDone, this`doneIn
      ensures txm.Valid() && txm.raised == old(txm.raised)
      ensures Coherent() && DoneOnlyIn(old(doneIn), doneIn, true)
      ensures failed || ctxDone ==> txm.c == CIdle
      ensures !failed && !ctxDone ==> txm.c == CAt(Leftovers({})) && NoneLeft()
      ensures failed ==> RanOut(old(pos)) || !AreLeftovers(txm.State().db, AsSet(found))
      ensures IsPast(old(pos))
    {
      if pos >= |script| {
        return true;
      }
      var a := Ask();
      if ctxDone {
        return false;
      }
      if !a.stored || !AreLeftovers(txm.State().db, AsSet(found)) {
        return true;
      }
      txm.Do(CFindLeftovers(AsSet(found)));
      failed := HandleLeftovers(found);
    }

    /** The loop over the leftovers; a context that is done ends it without an error. */
    method HandleLeftovers(found: seq<AttemptId>) returns (failed: bool)
      requires txm.Valid() && Coherent() && !ctxDone && txm.c == CAt(Leftovers(AsSet(found)))
      requires forall i, j :: 0 <= i < j < |found| ==> found[i] != found[j]
      modifies txm, this`pos, this`ctxDone, this`doneIn
      ensures txm.Valid() && txm.raised == old(txm.raised) && IsPast(old(pos))
      ensures Coherent() && DoneOnlyIn(old(doneIn), doneIn, true)
      ensures failed || ctxDone ==> txm.c == CIdle
      ensures !failed && !ctxDone ==> txm.c == CAt(Leftovers({})) && NoneLeft()
      ensures failed ==> RanOut(old(pos))
    {
      for i := 0 to |found|
        invariant txm.Valid() && txm.raised == old(txm.raised) && txm.c == CAt(Leftovers(AsSet(found[i..])))
        invariant Coherent() && !ctxDone && IsPast(old(pos))
      {
        assert found[i..] == [found[i]] + found[i + 1..];
        assert AsSet(found[i..]) - {found[i]} == AsSet(found[i + 1..]);
        failed := HandleLeftover(found[i], AsSet(found[i..]));
        if ctxDone {
          if !failed {
            Bail();
          }
          return false;
        } else if failed {
          return;
        }
      }
      assert AsSet(found[|found|..]) == {};
      NoneLeftNow();
      failed := false;
    }

    function AsSet(aids: seq<AttemptId>): set<AttemptId> {
      set aid | aid in aids
    }

    method HandleLeftover(aid: AttemptId, todo: set<AttemptId>) returns (failed: bool)
      requires txm.Valid() && Coherent() && txm.c == CAt(Leftovers(todo)) && aid in todo
      modifies txm, this`pos, this`ctxDone, this`doneIn
      ensures txm.Valid() && txm.raised == old(txm.raised)
      ensures Coherent() && DoneOnlyIn(old(doneIn), doneIn, true)
      ensures txm.c == if failed then CIdle else CAt(Leftovers(todo - {aid}))
      ensures IsPast(old(pos)) && (failed ==> RanOut(old(pos)))
      ensures !failed && aid in old(txm.attempts) ==> !HasInProgressAttempt(txm.State().db, old(txm.attempts)[aid].txId)
    {
      assert aid in txm.attempts by { txm.StateFits(); }
      txm.Do(CTakeLeftover(aid));
      ghost var sent;
      failed, sent := HandleInProgressAttempt(txm.c.id, aid, Leftovers(todo - {aid}));
    }

    /** TxAttempts[0]: the attempt with the highest fee, if there is any. */
    method TopOf(id: TxId) returns (top: Option<AttemptId>)
      ensures top.None? ==> forall aid :: !AttemptOf(txm.State().db, aid, id)
      ensures top.Some? ==> TopAttempt(txm.State().db, top.value, id)
    {
      var left := txm.attempts.Keys;
      top := None;
      while exists aid :: aid in left
        invariant left <= txm.attempts.Keys
        invariant top.None? ==> forall aid :: aid in txm.attempts && aid !in left ==> txm.attempts[aid].txId != id
        invariant top.Some? ==> AttemptOf(txm.State().db, top.value, id)
        invariant top.Some? ==>
          forall aid :: aid in txm.attempts && aid !in left && txm.attempts[aid].txId == id ==>
              txm.attempts[aid].fee <= txm.attempts[top.value].fee
        decreases |left|
      {
        var aid :| aid in left;
        left := left - {aid};
        if txm.attempts[aid].txId == id && (top.None? || txm.attempts[top.value].fee < txm.attempts[aid].fee) {
          top := Some(aid);
        }
      }
    }

    /** Puts the attempt to rebroadcast in progress: the same one again after insufficient funds or a failed
        bump, else a new one above it. */
    method SaveAttemptForRebroadcast(id: TxId, a: Answer) returns (failed: bool)
      requires txm.Valid() && txm.c.CAt? && txm.c.phase.Bumps? && id in txm.c.phase.ids
      modifies txm
      ensures txm.Valid()
      ensures failed ==> txm.c == CIdle && txm.State().db == old(txm.State()).db
      ensures failed ==> !a.stored || !a.bump.BumpError? || forall aid :: !AttemptOf(txm.State().db, aid, id)
      ensures txm.raised == if failed then old(txm.raised) else old(txm.raised) + [id]
      ensures !failed ==> txm.c.CSending? && txm.c.id == id && txm.c.phase == Bumps(old(txm.c).phase.ids - {id})
      ensures !failed && a.bump.OtherError? ==>
                txm.c.aid in old(txm.attempts) && old(txm.attempts)[txm.c.aid].state == AttemptInsufficientFunds
      ensures !failed && txm.c.aid in old(txm.attempts) ==> TopAttempt(old(txm.State()).db, txm.c.aid, id)
      ensures !failed && txm.c.aid !in old(txm.attempts) ==>
                txm.c.aid in txm.attempts && NewTop(old(txm.State()).db, id, txm.attempts[txm.c.aid].fee)
    {
      var top := TopOf(id);
      if top.None? || !a.stored {
        Bail();
        return true;
      }
      if txm.attempts[top.value].state == AttemptInsufficientFunds || a.bump.BumpError? {
        txm.Do(CResubmit(id, top.value));
        return false;
      }
      if a.bump.NewAttempt? && Enabled(txm.State(), CSaveBump(id, a.bump.aid, a.bump.fee)) {
        txm.Do(CSaveBump(id, a.bump.aid, a.bump.fee));
        return false;
      }
      Bail();
      failed := true;
    }

    /** The rows are unconfirmed transactions with their sequence. */
    predicate AreUnconfirmed(rows: seq<Row>)
      reads txm
    {
      forall r :: r in rows ==>
          IsInState(txm.State().db, r.id, Unconfirmed) && txm.txs[r.id].sequence == Some(r.sequence)
    }

    /** The two queries of FindTxsRequiringRebroadcast: it goes on unless one fails or the context is done after the
        second. */
    method AskForTxs() returns (failed: bool, goesOn: bool)
      requires txm.Valid() && Coherent() && BeforeBumps(txm.c)
      modifies txm, this`pos, this`ctxDone, this`doneIn
      ensures txm.Valid() && txm.raised == old(txm.raised) && txm.c == old(txm.c) && IsPast(old(pos))
      ensures Coherent() && DoneOnlyIn(old(doneIn), doneIn, true)
      ensures failed ==> RanOut(old(pos))
      ensures !failed ==> goesOn == !ctxDone
    {
      if pos >= |script| {
        return true, false;
      }
      var a := Ask();
      if !a.stored || pos >= |script| {
        return true, false;
      }
      var b := Ask();
      return !ctxDone && !b.stored, !ctxDone;
    }

    /** Rows that are no answer to the queries, or name a transaction without attempts. */
    ghost predicate AreBadRows(rows: seq<Row>)
      reads txm
    {
      !AreUnconfirmed(rows) || HasNoAttempt(rows)
    }

    /** The context was cancelled before the pass came to the bumps. */
    ghost predicate GaveUpEarly()
      reads this
    {
      doneIn.Some? && BeforeBumps(doneIn.value)
    }

    ghost predicate HasNoAttempt(rows: seq<Row>)
      reads txm
    {
      exists r :: r in rows && forall aid :: !AttemptOf(txm.State().db, aid, r.id)
    }

    /** Bumps or resends transactions in sequence order.  A pass whose context is cancelled before the bumps, in the
        leftovers or in one of the queries, puts no attempt in progress.  Any other pass without an error does so
        exactly once for each transaction that is due, in ascending sequence, and leaves no attempt of an unconfirmed
        transaction in progress.  A pass with an error does so for the first k of them, and the error has a cause. */
    method RebroadcastWhereNecessary(found: seq<AttemptId>, insufficientFunds: seq<Row>, bumps: seq<Row>)
        returns (failed: bool, ghost etxs: seq<Row>, ghost k: nat)
      requires txm.Valid() && Coherent() && txm.c == CIdle
      requires forall i, j :: 0 <= i < j < |found| ==> found[i] != found[j]
      requires NoRepeats(insufficientFunds) && NoRepeats(bumps)
      modifies txm, this`pos, this`ctxDone, this`doneIn
      ensures txm.Valid() && txm.c == CIdle
      ensures RaisedFirst(old(txm.raised), etxs, k)
      ensures old(ctxDone) || GaveUpEarly() ==> k == 0
      ensures k > 0 ==> AreDue(insufficientFunds, bumps, txm.maxInFlight, etxs)
      ensures !failed && !old(ctxDone) && !GaveUpEarly() ==>
                NoneLeft() && k == |etxs| && AreDue(insufficientFunds, bumps, txm.maxInFlight, etxs)
      ensures failed ==>
                || RanOut(old(pos)) || !AreLeftovers(txm.State().db, AsSet(found))
                || AreBadRows(insufficientFunds) || AreBadRows(bumps)
    {
      etxs, k := [], 0;
      failed := HandleAnyInProgressAttempts(found);
      if failed {
        return;
      }
      var goesOn;
      failed, goesOn := AskForTxs();
      if failed || !goesOn {
        Bail();
        return;
      }
      failed, etxs, k := RebroadcastFound(insufficientFunds, bumps);
    }

    /** What a pass does with the answers of the queries. */
    method RebroadcastFound(insufficientFunds: seq<Row>, bumps: seq<Row>)
      returns (failed: bool, ghost etxs: seq<Row>, ghost k: nat)
      requires txm.Valid() && Coherent() && txm.c == CAt(Leftovers({}))
      requires NoRepeats(insufficientFunds) && NoRepeats(bumps)
      modifies txm, this`pos, this`ctxDone, this`doneIn
      ensures txm.Valid() && txm.c == CIdle && IsPast(old(pos))
      ensures Coherent() && DoneOnlyIn(old(doneIn), doneIn, false)
      ensures RaisedFirst(old(txm.raised), etxs, k)
      ensures k > 0 || !failed ==> AreDue(insufficientFunds, bumps, txm.maxInFlight, etxs)
      ensures k > 0 || !failed ==>
                forall r :: r in etxs ==>
                    r.id in old(txm.txs) && old(txm.txs)[r.id] == Tx(Unconfirmed, Some(r.sequence))
      ensures !failed ==> NoneLeft() && k == |etxs|
      ensures failed ==> RanOut(old(pos)) || AreBadRows(insufficientFunds) || AreBadRows(bumps)
    {
      if !AreUnconfirmed(insufficientFunds) || !AreUnconfirmed(bumps) {
        Bail();
        return true, [], 0;
      }
      var rows := FindTxsRequiringRebroadcast(insufficientFunds, bumps, txm.maxInFlight);
      etxs := rows;
      txm.Do(CFindBumps(Ids(rows)));
      failed, k := RebroadcastAll(rows);
    }

    function Ids(rows: seq<Row>): set<TxId> {
      set r | r in rows :: r.id
    }

    /** One turn of the loop over the transactions found. */
    method RebroadcastOne(r: Row, ids: set<TxId>) returns (failed: bool)
      requires txm.Valid() && Coherent() && txm.c == CAt(Bumps(ids)) && r.id in ids
      modifies txm, this`pos, this`ctxDone, this`doneIn
      ensures txm.Valid() && IsPast(old(pos))
      ensures Coherent() && DoneOnlyIn(old(doneIn), doneIn, false)
      ensures txm.c == if failed then CIdle else CAt(Bumps(ids - {r.id}))
      ensures txm.raised == old(txm.raised) + [r.id] || (failed && txm.raised == old(txm.raised))
      ensures failed ==> RanOut(old(pos)) || forall aid :: !AttemptOf(txm.State().db, aid, r.id)
    {
      if pos >= |script| {
        Bail();
        return true;
      }
      var a := Ask();
      failed := SaveAttemptForRebroadcast(r.id, a);
      if !failed {
        ghost var sent;
        failed, sent := HandleInProgressAttempt(r.id, txm.c.aid, txm.c.phase);
      }
    }

    /** Since `before`, the first k rows and no others had an attempt put in progress, each once and in this order. */
    ghost predicate RaisedFirst(before: seq<TxId>, etxs: seq<Row>, k: nat)
      reads txm
    {
      && k <= |etxs| && |txm.raised| == |before| + k && before <= txm.raised
      && forall j :: 0 <= j < k ==> txm.raised[|before| + j] == etxs[j].id
    }

    /** The loop over the transactions found.  Without an error each of them had an attempt put in progress, and none of
        an unconfirmed transaction is left so.  An error has a cause. */
    method RebroadcastAll(etxs: seq<Row>) returns (failed: bool, ghost k: nat)
      requires txm.Valid() && Coherent() && NoRepeats(etxs) && txm.c == CAt(Bumps(Ids(etxs)))
      modifies txm, this`pos, this`ctxDone, this`doneIn
      ensures txm.Valid() && txm.c == CIdle && IsPast(old(pos))
      ensures Coherent() && DoneOnlyIn(old(doneIn), doneIn, false)
      ensures RaisedFirst(old(txm.raised), etxs, k)
      ensures !failed ==> NoneLeft() && k == |etxs|
      ensures failed ==> RanOut(old(pos)) || HasNoAttempt(etxs)
    {
      for i := 0 to |etxs|
        invariant txm.Valid() && RaisedFirst(old(txm.raised), etxs, i) && IsPast(old(pos))
        invariant Coherent() && DoneOnlyIn(old(doneIn), doneIn, false)
        invariant txm.c == CAt(Bumps(Ids(etxs[i..])))
      {
        IdsOfRest(etxs, i);
        k := i;
        failed := RebroadcastOne(etxs[i], Ids(etxs[i..]));
        if failed {
          assert etxs[i] in etxs;
          k := if |txm.raised| > |old(txm.raised)| + i then i + 1 else i;
          return;
        }
      }
      assert Ids(etxs[|etxs|..]) == {};
      FinishBumps();
      failed, k := false, |etxs|;
    }

    method FinishBumps()
      requires txm.Valid() && txm.c == CAt(Bumps({}))
      modifies txm
      ensures txm.Valid() && txm.c == CIdle && txm.raised == old(txm.raised) && NoneLeft()
    {
      NoneLeftNow();
      txm.Do(CDone);
    }

    lemma IdsOfRest(rows: seq<Row>, i: nat)
      requires NoRepeats(rows) && i < |rows|
      ensures rows[i].id in Ids(rows[i..]) && Ids(rows[i..]) - {rows[i].id} == Ids(rows[i + 1..])
    {
      assert rows[i..] == [rows[i]] + rows[i + 1..];
      forall r | r in rows[i + 1..] ensures r.id != rows[i].id {
        var j :| i < j < |rows| && rows[j] == r;
      }
    }

    /** Transactions that left unconfirmed although the chain has not counted them. */
    function Reorged(mined: int): set<TxId>
      reads txm
    {
      set id |
        && id in txm.txs && Sent(txm.txs[id]) && txm.txs[id].state != Unconfirmed
        && txm.txs[id].sequence.value >= mined
    }

    function Included(mined: int): set<TxId>
      reads txm
    {
      set id |
        && id in txm.txs && txm.txs[id].state == Unconfirmed && txm.txs[id].sequence.Some?
        && txm.txs[id].sequence.value < mined
    }

    /** Picks the highest priced attempt of every re-org'd transaction; fails on one without attempts. */
    method TopsOf(ids: set<TxId>) returns (tops: set<AttemptId>, failed: bool)
      ensures failed <==> exists id :: id in ids && forall aid :: !AttemptOf(txm.State().db, aid, id)
      ensures !failed ==> AreTops(ids, tops)
    {
      var left, chosen: map<TxId, AttemptId> := ids, map[];
      while exists id :: id in left
        invariant left <= ids && chosen.Keys == ids - left
        invariant forall id :: id in chosen ==> TopAttempt(txm.State().db, chosen[id], id)
        decreases |left|
      {
        var id :| id in left;
        var top := TopOf(id);
        if top.None? {
          return {}, true;
        }
        left, chosen := left - {id}, chosen[id := top.value];
      }
      assert chosen.Keys == ids;
      tops, failed := chosen.Values, false;
      ChosenAreTops(ids, chosen);
    }

    lemma ChosenAreTops(ids: set<TxId>, chosen: map<TxId, AttemptId>)
      requires chosen.Keys == ids
      requires forall id :: id in chosen ==> TopAttempt(txm.State().db, chosen[id], id)
      ensures AreTops(ids, chosen.Values)
    {
      var db := txm.State().db;
      forall id | id in ids ensures exists aid :: aid in chosen.Values && TopAttempt(db, aid, id) {
        assert chosen[id] in chosen.Values;
      }
      forall aid | aid in chosen.Values
        ensures aid in db.attempts && db.attempts[aid].txId in ids && chosen[db.attempts[aid].txId] == aid
        ensures TopAttempt(db, aid, db.attempts[aid].txId)
      {
        var id :| id in chosen && chosen[id] == aid;
      }
    }

    predicate AreTops(ids: set<TxId>, tops: set<AttemptId>)
      reads txm
    {
      && (forall id | id in ids :: exists aid | aid in tops :: TopAttempt(txm.State().db, aid, id))
      && (forall aid | aid in tops ::
            && aid in txm.attempts && txm.attempts[aid].txId in ids
            && TopAttempt(txm.State().db, aid, txm.attempts[aid].txId))
      && (forall aid, other | aid in tops && other in tops ::
            txm.attempts[aid].txId == txm.attempts[other].txId ==> aid == other)
    }

    /** The transactions are unconfirmed, the other broadcast ones at most finalized meanwhile. */
    ghost predicate SentBack(db: Db, db': Db, ids: set<TxId>) {
      forall id :: IsSent(db, id) ==>
        && id in db'.txs
        && (if id in ids then db'.txs[id] == db.txs[id].(state := Unconfirmed)
            else SameOrFinalized(db.txs[id], db'.txs[id]))
    }

    /** Sends re-org'd transactions back to unconfirmed. */
    method ProcessReorgTxs(ids: set<TxId>, a: Answer) returns (failed: bool)
      requires txm.Valid() && txm.c == CIdle
      requires forall id :: id in ids ==> IsSent(txm.State().db, id) && txm.txs[id].state != Unconfirmed
      modifies txm
      ensures txm.Valid() && txm.c == CIdle
      ensures failed <==> !a.stored || exists id :: id in ids && forall aid :: !AttemptOf(old(txm.State()).db, aid, id)
      ensures !failed ==> SentBack(old(txm.State()).db, txm.State().db, ids)
    {
      var tops;
      tops, failed := TopsOf(ids);
      if failed {
        return;
      }
      txm.Do(CFindReorg(ids, tops));
      txm.Yield(TheConfirmer, a.others);
      if !a.stored {
        Bail();
        return true;
      }
      txm.Do(CApplyReorg);
    }

    /** Marks included transactions as confirmed, or as fatal when one of their attempts was a purge. */
    method ProcessIncludedTxs(ids: set<TxId>, a: Answer, b: Answer) returns (failed: bool)
      requires txm.Valid() && txm.c == CIdle
      requires forall id :: id in ids ==> IsInState(txm.State().db, id, Unconfirmed) && txm.txs[id].sequence.Some?
      modifies txm
      ensures txm.Valid() && txm.c == CIdle
      ensures failed <==> !(a.stored && b.stored)
      ensures !failed ==> Restated(old(txm.State()).db, txm.State().db, ids)
    {
      ghost var db := txm.State().db;
      txm.Do(CFindIncluded(ids));
      var purged, confirmed := txm.c.purged, txm.c.confirmed;
      txm.Yield(TheConfirmer, a.others);
      if !a.stored {
        Bail();
        return true;
      }
      ghost var found := txm.State().db;
      txm.Do(CApplyPurged);
      ghost var fatal := txm.State().db;
      assert forall id :: IsSent(found, id) ==> IsSent(fatal, id);
      txm.Yield(TheConfirmer, b.others);
      if !b.stored {
        Bail();
        return true;
      }
      ghost var waited := txm.State().db;
      txm.Do(CApplyConfirmed);
      RestatedInTurn(db, found, fatal, waited, txm.State().db, ids, purged, confirmed);
      failed := false;
    }

    /** Fatal if purged, else confirmed. */
    ghost predicate BecomesIncluded(db: Db, tx: Tx, id: TxId) {
      id in db.txs && tx == db.txs[id].(state := if HasPurgeAttempt(db, id) then FatalError else Confirmed)
    }

    /** Included transactions are confirmed or fatal, the other broadcast ones as they were. */
    ghost predicate Restated(db: Db, db': Db, ids: set<TxId>) {
      forall id :: IsSent(db, id) ==>
        && id in db'.txs
        && (id in ids ==> BecomesIncluded(db, db'.txs[id], id))
        && (id !in ids ==> SameOrFinalized(db.txs[id], db'.txs[id]))
    }

    lemma RestatedInTurn(db: Db, found: Db, fatal: Db, waited: Db, db': Db, ids: set<TxId>, purged: set<TxId>,
                         confirmed: set<TxId>)
      requires purged == (set id | id in ids && HasPurgeAttempt(db, id))
      requires confirmed == (set id | id in ids && !HasPurgeAttempt(db, id))
      requires forall id :: id in ids ==> IsInState(db, id, Unconfirmed)
      requires OnlyFinalized(db, found) && fatal == UpdateTxFatalError(found, purged)
      requires OnlyFinalized(fatal, waited) && db' == UpdateTxConfirmed(waited, confirmed)
      ensures Restated(db, db', ids)
    {
      forall id | IsSent(db, id)
        ensures id in db'.txs
        ensures id in ids ==> BecomesIncluded(db, db'.txs[id], id)
        ensures id !in ids ==> SameOrFinalized(db.txs[id], db'.txs[id])
      {
        assert IsSent(found, id);
        assert IsSent(fatal, id);
        assert IsSent(waited, id);
      }
    }

    /** Left unconfirmed although the chain has not counted it. */
    ghost predicate IsReorged(db: Db, mined: int, id: TxId) {
      IsSent(db, id) && db.txs[id].state != Unconfirmed && db.txs[id].sequence.value >= mined
    }

    ghost predicate HasReorg(db: Db, mined: int) {
      exists id :: IsReorged(db, mined, id)
    }

    /** A re-org'd transaction without attempts. */
    ghost predicate LacksAttempts(db: Db, mined: int) {
      exists id :: IsReorged(db, mined, id) && forall aid :: !AttemptOf(db, aid, id)
    }

    lemma ReorgIffAny(mined: int)
      ensures HasReorg(txm.State().db, mined) <==> Reorged(mined) != {}
    {
      var reorged := Reorged(mined);
      assert forall id :: id in reorged <==> IsReorged(txm.State().db, mined, id);
      if !HasReorg(txm.State().db, mined) {
        assert forall id :: id !in reorged;
      }
    }

    /** Transactions at or above the mined count are unconfirmed.  Those below it are as they were, at most finalized
        meanwhile; but if nothing was re-org'd, the unconfirmed ones among them are fatal if purged and confirmed
        otherwise. */
    ghost predicate MinedCountHolds(db: Db, db': Db, mined: int) {
      forall id :: IsSent(db, id) ==>
        && id in db'.txs
        && (db.txs[id].sequence.value >= mined ==> db'.txs[id] == db.txs[id].(state := Unconfirmed))
        && (db.txs[id].sequence.value < mined ==>
              if db.txs[id].state == Unconfirmed && !HasReorg(db, mined)
              then db'.txs[id] == db.txs[id].(state := if HasPurgeAttempt(db, id) then FatalError else Confirmed)
              else SameOrFinalized(db.txs[id], db'.txs[id]))
    }

    /** Compares the store with the mined count.  Afterwards no broadcast transaction at or above the count is
        anything but unconfirmed; if there was no re-org, every one below it is confirmed or fatal.  An error has a
        cause. */
    method CheckForConfirmation(mined: Option<int>, a: Answer, b: Answer) returns (failed: bool)
      requires txm.Valid() && txm.c == CIdle
      modifies txm
      ensures txm.Valid() && txm.c == CIdle
      ensures !failed ==> mined.Some? && MinedCountHolds(old(txm.State()).db, txm.State().db, mined.value)
      ensures failed <==>
                || mined.None? || !a.stored
                || (if !HasReorg(old(txm.State()).db, mined.value) then !b.stored
                    else LacksAttempts(old(txm.State()).db, mined.value))
    {
      if mined.None? {
        return true;
      }
      ghost var db := txm.State().db;
      var reorged := Reorged(mined.value);
      ReorgIffAny(mined.value);
      if reorged != {} {
        failed := ProcessReorgTxs(reorged, a);
        if !failed {
          HoldsAfterReorg(db, txm.State().db, mined.value, reorged);
        } else if a.stored {
          ghost var id :| id in reorged && forall aid :: !AttemptOf(db, aid, id);
          assert IsReorged(db, mined.value, id);
        }
      } else {
        var included := Included(mined.value);
        failed := ProcessIncludedTxs(included, a, b);
        if !failed {
          HoldsAfterInclusion(db, txm.State().db, mined.value, included);
        }
      }
    }

    lemma HoldsAfterReorg(db: Db, db': Db, mined: int, ids: set<TxId>)
      requires HasReorg(db, mined) && SentBack(db, db', ids) && forall id :: id in ids <==> IsReorged(db, mined, id)
      ensures MinedCountHolds(db, db', mined)
    {
    }

    lemma HoldsAfterInclusion(db: Db, db': Db, mined: int, ids: set<TxId>)
      requires !HasReorg(db, mined) && Restated(db, db', ids)
      requires forall id :: id in ids <==>
                 IsSent(db, id) && db.txs[id].state == Unconfirmed && db.txs[id].sequence.value < mined
      ensures MinedCountHolds(db, db', mined)
    {
      forall id | IsSent(db, id)
        ensures db.txs[id].state == Unconfirmed || db.txs[id].sequence.value < mined
      {
        assert !IsReorged(db, mined, id);
      }
    }
  }
}
