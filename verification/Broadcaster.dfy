/** The Broadcaster's code for one address (chains/txmgr/broadcaster.go), acting on the shared manager.
    Answers of the chain client, the attempt builder, the transmit checker and the store come from a script,
    as do the steps other goroutines take meanwhile; an exhausted script is a cancelled context.  An answer
    that breaks its component's contract counts as an error of that component. */
module Broadcasting {
  import opened Wrappers
  import opened TxStore
  import opened TxProtocol
  import opened TxManager
  import opened ReturnCodes

  const MAX_HEDERA_BROADCAST_RETRIES := 3

  datatype BuildResult = Built(aid: AttemptId, fee: int) | FeeLimitTooLow | BuildFailed(retryable: bool)

  datatype CheckResult = Passed | TimedOut | Rejected | BadChecker

  datatype Answer = Answer(
    others: seq<Step>,          // taken by others before the answer arrives
    late: seq<Step>,            // taken by others between the two updates of a successful broadcast
    code: SendTxReturnCode,
    error: bool,                // a non-nil error next to a success code
    mined: Option<int>,         // SequenceAt, None is an error
    pending: Option<int>,       // PendingSequenceAt, None is an error
    built: BuildResult,
    check: CheckResult,
    stored: bool,               // whether the store accepts the update
    found: Option<TxId>,        // FindNextUnstartedTransactionFromAddress
    now: int)

  datatype UnknownErr = UnknownErr(txId: TxId, count: nat, firstSeen: int)

  /** The Hedera check that a broadcast really consumed its sequence. */
  function ValidateOnChainSequence(code: SendTxReturnCode, error: bool, mined: Option<int>, sequence: int,
                                   retryCount: nat)
    : (r: (SendTxReturnCode, bool))
    ensures code != Successful ==> r == (code, error)
    ensures code == Successful ==> r.0 == Successful || r.0 == Underpriced || r.0 == Fatal
    ensures code == Successful ==> (r.0 == Successful <==> mined.None? || sequence < mined.value)
    ensures code == Successful ==>
              (r.0 == Underpriced <==> mined == Some(sequence) && retryCount < MAX_HEDERA_BROADCAST_RETRIES)
    ensures code == Successful ==> (r.1 <==> mined.None? || r.0 == Fatal)
  {
    if code != Successful then (code, error)
    else if mined.None? then (code, true)
    else if mined.value == sequence && retryCount < MAX_HEDERA_BROADCAST_RETRIES then (Underpriced, false)
    else if mined.value == sequence then (Fatal, true)
    else if mined.value < sequence then (Fatal, true)
    else (Successful, false)
  }

  /** What handleInProgressTx takes a node's answer for. */
  function EffectiveCode(a: Answer, hedera: bool, sequence: int, retryCount: nat): SendTxReturnCode {
    if hedera then ValidateOnChainSequence(a.code, SendError(a), a.mined, sequence, retryCount).0 else a.code
  }

  /** The client returns a non-nil error with every non-success code. */
  predicate SendError(a: Answer) {
    a.error || a.code !in SUCCESSFUL_CODES
  }

  predicate TreatedAsUnknown(code: SendTxReturnCode) {
    code == Unknown || code == ExceedsMaxFee || code == Unassigned
  }

  /** The transaction is taken to have reached the chain. */
  predicate Accepted(a: Answer, code: SendTxReturnCode, sequence: int) {
    code in SUCCESSFUL_CODES || (TreatedAsUnknown(code) && a.pending.Some? && a.pending.value > sequence)
  }

  /** The transaction can never be accepted. */
  predicate Refused(code: SendTxReturnCode) {
    code == Fatal || code == TerminallyStuck
  }

  /** Unknown errors of this very transaction, recorded before this one, have lasted for the configured time. */
  predicate HasLasted(unknownErr: Option<UnknownErr>, id: TxId, now: int, timeout: int) {
    timeout > 0 && unknownErr.Some? && unknownErr.value.txId == id && now - unknownErr.value.firstSeen >= timeout
  }

  /** One more unknown error of the transaction: what is kept is when the first of them was seen. */
  function OneMore(unknownErr: Option<UnknownErr>, id: TxId, now: int): UnknownErr {
    if unknownErr.Some? && unknownErr.value.txId == id then unknownErr.value.(count := unknownErr.value.count + 1)
    else UnknownErr(id, 1, now)
  }

  /** What is known of unknown errors after an answer that leads to no re-send: nothing after an end, one more after
      one that goes on, and as before after any other. */
  function ErrAfter(unknownErr: Option<UnknownErr>, a: Answer, code: SendTxReturnCode, id: TxId, sequence: int,
                    timeout: int): Option<UnknownErr> {
    if Refused(code) then None
    else if Accepted(a, code, sequence) then (if a.stored then None else unknownErr)
    else if !TreatedAsUnknown(code) || a.pending.None? || timeout <= 0 then unknownErr
    else if HasLasted(unknownErr, id, a.now, timeout) then None
    else Some(OneMore(unknownErr, id, a.now))
  }

  /** Unknown errors may end a transaction when they have lasted long enough. */
  predicate MayGiveUp(a: Answer, code: SendTxReturnCode, id: TxId, sequence: int, unknownErr: Option<UnknownErr>,
                      timeout: int) {
    && TreatedAsUnknown(code) && a.pending.Some? && a.pending.value <= sequence
    && HasLasted(unknownErr, id, a.now, timeout)
  }

  /** Why a send of `id` ended without error: the last answer accepted it and the store holds its sequence,
      or the last answer ended it and its sequence is free. */
  ghost predicate Finished(txm: Manager, id: TxId, sequence: int, a: Answer, code: SendTxReturnCode,
                           unknownErr: Option<UnknownErr>, timeout: int)
    reads txm
  {
    && a.stored
    && (if IsSent(txm.State().db, id) then Accepted(a, code, sequence)
        else
          && IsInState(txm.State().db, id, FatalError)
          && (Refused(code) || MayGiveUp(a, code, id, sequence, unknownErr, timeout)))
  }

  /** What a send of `id` ended with, after its last answer. */
  ghost predicate Ended(txm: Manager, failed: bool, id: TxId, sequence: int, a: Answer, code: SendTxReturnCode,
                        unknownErr: Option<UnknownErr>, timeout: int)
    reads txm
  {
    if failed
    then
      && Unfinished(txm, id, sequence)
      && !(a.stored && (Accepted(a, code, sequence) || Refused(code)
                        || MayGiveUp(a, code, id, sequence, unknownErr, timeout)))
    else txm.b == BLoop && NoneInProgress(txm.State().db) && Finished(txm, id, sequence, a, code, unknownErr, timeout)
  }

  ghost predicate Unfinished(txm: Manager, id: TxId, sequence: int)
    reads txm
  {
    txm.b == BIdle && txm.Holds(id, InProgress, sequence)
  }

  /** An answer after which a new attempt takes the place of the one sent. */
  predicate CallsForResend(code: SendTxReturnCode) {
    code == Underpriced || code == FeeOutOfValidRange
  }

  /** The retry count of the next send: one more after an underpriced attempt, none after a new estimate. */
  function NextRetry(code: SendTxReturnCode, retryCount: nat): nat {
    if code == Underpriced then retryCount + 1 else 0
  }

  /** Each answer from `lo` up to `hi` led to a re-send, from retry count `retryCount` to `tries`. */
  ghost predicate Resent(script: seq<Answer>, lo: nat, hi: nat, hedera: bool, sequence: int, retryCount: nat,
                         tries: nat)
    requires lo <= hi <= |script|
    decreases hi - lo
  {
    if lo == hi then tries == retryCount
    else
      var code := EffectiveCode(script[lo], hedera, sequence, retryCount);
      && CallsForResend(code) && script[lo].built.Built? && script[lo].stored
      && Resent(script, lo + 1, hi, hedera, sequence, NextRetry(code, retryCount), tries)
  }

  /** Re-sends from the k-th answer on, with the retry count they start from. */
  lemma {:induction false} ResentFrom(script: seq<Answer>, lo: nat, hi: nat, hedera: bool, sequence: int,
                                      retryCount: nat, tries: nat, k: nat)
    returns (from: nat)
    requires lo <= k <= hi <= |script| && Resent(script, lo, hi, hedera, sequence, retryCount, tries)
    ensures Resent(script, k, hi, hedera, sequence, from, tries)
    decreases k - lo
  {
    if k == lo {
      from := retryCount;
    } else {
      var code := EffectiveCode(script[lo], hedera, sequence, retryCount);
      from := ResentFrom(script, lo + 1, hi, hedera, sequence, NextRetry(code, retryCount), tries, k);
    }
  }

  lemma {:induction false} ResentWithinLimit(script: seq<Answer>, lo: nat, hi: nat, sequence: int, retryCount: nat,
                                             tries: nat, j: nat)
    requires lo <= j < hi <= |script| && Resent(script, lo, hi, true, sequence, retryCount, tries)
    requires script[j].code == Successful && forall i :: lo <= i < j ==> script[i].code != FeeOutOfValidRange
    ensures retryCount + (j - lo) < MAX_HEDERA_BROADCAST_RETRIES
    decreases j - lo
  {
    if lo < j {
      ResentWithinLimit(script, lo + 1, hi, sequence, retryCount + 1, tries, j);
    }
  }

  /** On Hedera a broadcast that did not consume its sequence is re-sent at most three times in a row: of the three
      answers before a success that is re-sent, all of them re-sent too, one asked for a new estimate. */
  lemma HederaGivesUp(script: seq<Answer>, lo: nat, hi: nat, sequence: int, retryCount: nat, tries: nat, j: nat)
    requires lo <= hi <= |script| && Resent(script, lo, hi, true, sequence, retryCount, tries)
    requires lo + MAX_HEDERA_BROADCAST_RETRIES <= j < hi && script[j].code == Successful
    ensures exists i :: j - MAX_HEDERA_BROADCAST_RETRIES <= i < j && script[i].code == FeeOutOfValidRange
  {
    var k := j - MAX_HEDERA_BROADCAST_RETRIES;
    if forall i :: k <= i < j ==> script[i].code != FeeOutOfValidRange {
      var from := ResentFrom(script, lo, hi, true, sequence, retryCount, tries, k);
      ResentWithinLimit(script, k, hi, sequence, from, tries, j);
    }
  }

  /** The store takes an update on an answer that may end a transaction for good: a fee limit that is too low or a
      failed check before the first send, else a refusal, an unknown error or, on Hedera, a success that did not
      count. */
  predicate MayEnd(a: Answer, hedera: bool) {
    && a.stored
    && (|| EndsUnsent(a) || Refused(a.code)
        || (TreatedAsUnknown(a.code) && a.pending.Some?)
        || (hedera && a.code == Successful && a.mined.Some?))
  }

  /** An answer on which nothing goes wrong: an attempt is built and checked, the node takes it and the store takes
      every update. */
  predicate Smooth(a: Answer) {
    a.stored && GoesOut(a) && a.code in SUCCESSFUL_CODES
  }

  /** Ended before its first send: the fee limit is too low, or the transmit check fails. */
  predicate EndsUnsent(a: Answer) {
    a.built.FeeLimitTooLow? || (a.built.Built? && a.check == Rejected)
  }

  /** To be sent: an attempt is built, and the check passes or does not end in time. */
  predicate GoesOut(a: Answer) {
    a.built.Built? && (a.check == Passed || a.check == TimedOut)
  }

  /** How many answers of a script, from a position on, may end a transaction. */
  ghost function Endings(script: seq<Answer>, from: nat, hedera: bool): nat
    decreases |script| - from
  {
    if from >= |script| then 0 else (if MayEnd(script[from], hedera) then 1 else 0) + Endings(script, from + 1, hedera)
  }

  lemma {:induction false} EndingsFrom(script: seq<Answer>, from: nat, k: nat, hedera: bool)
    requires from <= k < |script|
    ensures (if MayEnd(script[k], hedera) then 1 else 0) + Endings(script, k + 1, hedera)
              <= Endings(script, from, hedera)
    decreases k - from
  {
    if from < k {
      EndingsFrom(script, from + 1, k, hedera);
    }
  }

  class Broadcaster {
    const txm: Manager
    const hedera: bool
    const unknownErrorRetryTimeout: int
    var unknownErr: Option<UnknownErr>
    const script: seq<Answer>
    var pos: nat                  // how many answers are used up

    constructor (txm: Manager, hedera: bool, unknownErrorRetryTimeout: int, script: seq<Answer>)
      ensures this.txm == txm && this.hedera == hedera && this.script == script && unknownErr == None && pos == 0
      ensures this.unknownErrorRetryTimeout == unknownErrorRetryTimeout
    {
      this.txm, this.hedera, this.script := txm, hedera, script;
      this.unknownErrorRetryTimeout := unknownErrorRetryTimeout;
      unknownErr, pos := None, 0;
    }

    /** Gives up on a transaction only once its own unknown errors have lasted for the configured time. */
    method RecordUnknownErr(txId: TxId, now: int) returns (exceeded: bool)
      modifies this`unknownErr
      ensures unknownErrorRetryTimeout <= 0 ==> !exceeded && unknownErr == old(unknownErr)
      ensures unknownErrorRetryTimeout > 0 ==>
                && unknownErr == Some(OneMore(old(unknownErr), txId, now))
                && (exceeded <==> HasLasted(old(unknownErr), txId, now, unknownErrorRetryTimeout))
    {
      if unknownErrorRetryTimeout <= 0 {
        return false;
      }
      var state :=
        if unknownErr.None? || unknownErr.value.txId != txId then UnknownErr(txId, 0, now) else unknownErr.value;
      state := state.(count := state.count + 1);
      unknownErr := Some(state);
      exceeded := now - state.firstSeen >= unknownErrorRetryTimeout;
    }

    /** Leaves the pass with an error. */
    method Bail()
      requires txm.Valid() && !txm.b.BSent?
      modifies txm
      ensures txm.Valid()
      ensures txm.b == BIdle && txm.State().db == old(txm.State()).db
      ensures txm.started == old(txm.started) && txm.ended == old(txm.ended)
    {
      txm.Do(BFail);
    }

    method SaveFatallyErroredTransaction(stored: bool) returns (failed: bool)
      requires txm.Valid() && (txm.b.BPicked? || txm.b.BSending?)
      modifies txm
      ensures txm.Valid()
      ensures failed <==> !(stored && old(txm.b).id in old(txm.txs))
      ensures txm.started == old(txm.started)
      ensures txm.ended == if failed then old(txm.ended) else old(txm.ended) + [old(txm.b).id]
      ensures failed ==> txm.b == BIdle && txm.State().db == old(txm.State()).db
      ensures !failed ==> && txm.b == BLoop && txm.next == old(txm.next)
                          && txm.State().db == UpdateTxFatalErrorAndDeleteAttempts(old(txm.State()).db, old(txm.b).id)
    {
      if stored && txm.b.id in txm.txs {
        txm.Do(BFatal);
        return false;
      }
      Bail();
      failed := true;
    }

    method ReplaceAttempt(built: BuildResult, stored: bool) returns (failed: bool, retryable: bool)
      requires txm.Valid() && txm.b.BSending?
      modifies txm
      ensures txm.Valid() && txm.started == old(txm.started) && txm.ended == old(txm.ended)
      ensures failed <==> !(stored && built.Built? && built.aid !in old(txm.attempts))
      ensures retryable <==> built.Built? || (built.BuildFailed? && built.retryable)
      ensures failed ==> txm.b == BIdle && txm.State().db == old(txm.State()).db
      ensures !failed ==> && built.Built? && built.aid !in old(txm.attempts)
                          && txm.b == old(txm.b).(aid := built.aid) && txm.next == old(txm.next)
                          && txm.State().db == SaveReplacementInProgressAttempt(
                                                 old(txm.State()).db, old(txm.b).aid, built.aid,
                                                 Attempt(txm.b.id, AttemptInProgress, built.fee, false))
    {
      match built
      case BuildFailed(r) =>
        Bail();
        return true, r;
      case FeeLimitTooLow =>
        Bail();
        return true, false;
      case Built(aid, fee) =>
        if stored && aid !in txm.attempts {
          txm.Do(BReplace(aid, fee));
          return false, true;
        }
        Bail();
        return true, true;
    }

    /** The store takes the broadcast, then the tracker moves on. */
    method Broadcast(stored: bool, late: seq<Step>) returns (failed: bool)
      requires txm.Valid() && txm.b.BSending?
      modifies txm, this`unknownErr
      ensures txm.Valid() && txm.started == old(txm.started) && txm.ended == old(txm.ended)
      ensures failed ==> txm.b == BIdle
      ensures failed <==> !stored
      ensures failed ==> txm.State().db == old(txm.State()).db
      ensures !failed ==> txm.b == BLoop && unknownErr == None && txm.next == old(txm.b).sequence + 1
      ensures !failed ==> IsSent(txm.State().db, old(txm.b).id)
      ensures failed ==> unknownErr == old(unknownErr)
    {
      if !stored {
        Bail();
        return true;
      }
      MarkBroadcast();
      txm.Yield(TheBroadcaster, late);
      unknownErr := None;
      txm.Do(BGenerate);
      failed := false;
    }

    /** The first of the two updates. */
    method MarkBroadcast()
      requires txm.Valid() && txm.b.BSending?
      modifies txm
      ensures txm.Valid() && txm.b == BSent(old(txm.b).sequence) && IsSent(txm.State().db, old(txm.b).id)
      ensures txm.started == old(txm.started) && txm.ended == old(txm.ended)
    {
      txm.SendingIsInProgress();
      txm.Do(BBroadcast);
    }

    /** An error has a cause: the answers ran out, or the last one is it. */
    ghost predicate Excused(from: nat)
      reads this`pos, txm
    {
      pos >= |script| || (from < pos && Disturbs(script[pos - 1]))
    }

    /** No smooth answer, or it brings the id of an attempt there is already, or names nothing unstarted although there
        is something. */
    ghost predicate Disturbs(a: Answer)
      reads txm
    {
      || !Smooth(a) || a.built.aid in txm.attempts
      || (HasUnstarted() && !(a.found.Some? && IsInState(txm.State().db, a.found.value, Unstarted)))
    }

    ghost predicate HasUnstarted()
      reads txm
    {
      exists id :: id in txm.txs && txm.txs[id].state == Unstarted
    }

    /** Waits for the next answer while the others move. */
    method Ask() returns (a: Answer)
      requires txm.Valid() && pos < |script|
      modifies txm, this`pos
      ensures a == script[old(pos)] && pos == old(pos) + 1
      ensures txm.Valid() && txm.b == old(txm.b) && txm.next == old(txm.next)
      ensures txm.started == old(txm.started) && txm.ended == old(txm.ended)
    {
      a := script[pos];
      pos := pos + 1;
      txm.Yield(TheBroadcaster, a.others);
    }

    /** What a send that began at a position of the script has come to: no answer was left, or all answers but the last
        led to re-sends and the last one to the end. */
    ghost predicate SendEnds(failed: bool, id: TxId, sequence: int, retryCount: nat, tries: nat, from: nat,
                             unknownErr: Option<UnknownErr>)
      reads this`pos, txm
    {
      if pos == from then failed && Unfinished(txm, id, sequence)
      else
        && from < pos <= |script|
        && Resent(script, from, pos - 1, hedera, sequence, retryCount, tries)
        && Ended(txm, failed, id, sequence, script[pos - 1],
                 EffectiveCode(script[pos - 1], hedera, sequence, tries), unknownErr, unknownErrorRetryTimeout)
    }

    /** What is known of unknown errors after a send: its last answer decides. */
    ghost function ErrAtEnd(id: TxId, sequence: int, tries: nat, from: nat, unknownErr: Option<UnknownErr>)
      : Option<UnknownErr>
      reads this`pos
    {
      if from < pos <= |script|
      then
        ErrAfter(unknownErr, script[pos - 1], EffectiveCode(script[pos - 1], hedera, sequence, tries), id, sequence,
                 unknownErrorRetryTimeout)
      else unknownErr
    }

    /** Whether a failed send is to be tried again soon: not if the builder says so, nor after Unsupported. */
    ghost predicate IsRetryable(sequence: int, tries: nat, from: nat)
      reads this`pos
    {
      && from < pos <= |script|
      && var a := script[pos - 1]; var code := EffectiveCode(a, hedera, sequence, tries);
         if CallsForResend(code) then a.built.Built? || (a.built.BuildFailed? && a.built.retryable)
         else code != Unsupported
    }

    /** The first answer leads to no re-send. */
    lemma EndsAtOnce(failed: bool, id: TxId, sequence: int, retryCount: nat, from: nat, unknownErr: Option<UnknownErr>)
      requires from < |script| && pos == from + 1
      requires Ended(txm, failed, id, sequence, script[from], EffectiveCode(script[from], hedera, sequence, retryCount),
                     unknownErr, unknownErrorRetryTimeout)
      ensures SendEnds(failed, id, sequence, retryCount, retryCount, from, unknownErr)
      ensures var code := EffectiveCode(script[from], hedera, sequence, retryCount);
              && (failed && !CallsForResend(code) ==> Excused(from))
              && ErrAtEnd(id, sequence, retryCount, from, unknownErr)
                   == ErrAfter(unknownErr, script[from], code, id, sequence, unknownErrorRetryTimeout)
              && (!CallsForResend(code) ==> (IsRetryable(sequence, retryCount, from) <==> code != Unsupported))
    {
    }

    /** The first answer leads to a re-send: what the rest of the send comes to is what all of it comes to. */
    lemma EndsAfterResend(failed: bool, id: TxId, sequence: int, retryCount: nat, tries: nat, from: nat,
                          unknownErr: Option<UnknownErr>) returns (tries': nat)
      requires from < |script|
      requires var code := EffectiveCode(script[from], hedera, sequence, retryCount);
               && CallsForResend(code)
               && SendEnds(failed, id, sequence, NextRetry(code, retryCount), tries, from + 1, unknownErr)
      requires from + 1 < pos ==> script[from].built.Built? && script[from].stored
      ensures SendEnds(failed, id, sequence, retryCount, tries', from, unknownErr)
      ensures ErrAtEnd(id, sequence, tries', from, unknownErr) == ErrAtEnd(id, sequence, tries, from + 1, unknownErr)
      ensures from + 1 < pos ==> (IsRetryable(sequence, tries', from) <==> IsRetryable(sequence, tries, from + 1))
      ensures pos == from + 1 ==>
                (IsRetryable(sequence, tries', from) <==>
                   script[from].built.Built? || (script[from].built.BuildFailed? && script[from].built.retryable))
      ensures (failed ==> Excused(from + 1) || (pos == from + 1 && Disturbs(script[from]))) ==> failed ==> Excused(from)
    {
      tries' := if pos == from + 1 then retryCount else tries;
    }

    /** Finishes the broadcast of the in_progress transaction.  It reports no error exactly when the last
        answer settled the transaction; otherwise the transaction is still in_progress with its sequence.
        Every path through it, re-sends included, is a run of the protocol. */
    method HandleInProgressTx(id: TxId, state: TxState, sequence: int, aid: AttemptId, retryCount: nat)
      returns (failed: bool, retryable: bool, ghost tries: nat)
      requires txm.Valid() && txm.b == BSending(id, sequence, aid)
      modifies txm, this`unknownErr, this`pos
      ensures txm.Valid() && txm.started == old(txm.started) && txm.ended == old(txm.ended) + EndOf(failed, id)
      ensures SendEnds(failed, id, sequence, retryCount, tries, old(pos), old(unknownErr))
      ensures failed && state == InProgress ==> Excused(old(pos))
      ensures unknownErr == ErrAtEnd(id, sequence, tries, old(pos), old(unknownErr))
      ensures failed && pos < |script| && state == InProgress ==>
                (retryable <==> IsRetryable(sequence, tries, old(pos)))
      decreases |script| - pos, 0
    {
      tries := retryCount;
      txm.SendingIsInProgress();
      if state != InProgress || pos >= |script| {
        Bail();
        return true, false, tries;
      }
      var a := Ask();
      var code := EffectiveCode(a, hedera, sequence, retryCount);
      if CallsForResend(code) {
        failed, retryable, tries := ReplaceAndResend(id, state, sequence, a, NextRetry(code, retryCount));
        tries := EndsAfterResend(failed, id, sequence, retryCount, tries, old(pos), old(unknownErr));
      } else {
        failed, retryable := HandleAnswer(id, sequence, a, code);
        EndsAtOnce(failed, id, sequence, retryCount, old(pos), old(unknownErr));
      }
    }

    /** Answers after which the transaction waits for the next pass. */
    method LeaveInProgress(id: TxId, sequence: int, a: Answer, code: SendTxReturnCode) returns (retryable: bool)
      requires txm.Valid() && txm.b.BSending? && txm.b.id == id && txm.b.sequence == sequence
      requires code == InsufficientFunds || code == Retryable || code == Unsupported
      modifies txm
      ensures txm.Valid() && Unfinished(txm, id, sequence) && (retryable <==> code != Unsupported)
      ensures txm.started == old(txm.started) && txm.ended == old(txm.ended) && txm.txs == old(txm.txs)
      ensures txm.attempts ==
                if code == InsufficientFunds && a.stored && a.built.Built? && a.built.aid !in old(txm.attempts)
                then (old(txm.attempts) - {old(txm.b).aid})[
                       a.built.aid := Attempt(id, AttemptInProgress, a.built.fee, false)]
                else old(txm.attempts)
    {
      txm.SendingIsInProgress();
      var failed, again := false, true;
      if code == InsufficientFunds {
        failed, again := ReplaceAttempt(a.built, a.stored);
      }
      if !failed {
        Bail();
      }
      retryable := code != Unsupported;
    }

    /** The transaction, if it ended as fatal. */
    ghost function EndOf(failed: bool, id: TxId): seq<TxId>
      reads txm
    {
      if !failed && !IsSent(txm.State().db, id) then [id] else []
    }

    method EndAsFatal(id: TxId, sequence: int, stored: bool) returns (failed: bool)
      requires txm.Valid() && txm.b.BSending? && txm.b.id == id && txm.b.sequence == sequence
      modifies txm, this`unknownErr
      ensures txm.Valid() && txm.started == old(txm.started) && (failed <==> !stored) && unknownErr == None
      ensures failed ==> Unfinished(txm, id, sequence) && txm.ended == old(txm.ended)
      ensures !failed ==>
                && txm.b == BLoop && txm.ended == old(txm.ended) + [id]
                && IsInState(txm.State().db, id, FatalError) && !IsSent(txm.State().db, id)
    {
      txm.SendingIsInProgress();
      unknownErr := None;
      failed := SaveFatallyErroredTransaction(stored);
    }

    method EndAsSent(id: TxId, sequence: int, stored: bool, late: seq<Step>) returns (failed: bool)
      requires txm.Valid() && txm.b.BSending? && txm.b.id == id && txm.b.sequence == sequence
      modifies txm, this`unknownErr
      ensures txm.Valid() && txm.started == old(txm.started) && txm.ended == old(txm.ended) && (failed <==> !stored)
      ensures unknownErr == if failed then old(unknownErr) else None
      ensures if failed then Unfinished(txm, id, sequence) else txm.b == BLoop && IsSent(txm.State().db, id)
    {
      txm.SendingIsInProgress();
      failed := Broadcast(stored, late);
    }

    /** Every answer that does not lead to another send. */
    method HandleAnswer(id: TxId, sequence: int, a: Answer, code: SendTxReturnCode)
        returns (failed: bool, retryable: bool)
      requires txm.Valid() && txm.b.BSending? && txm.b.id == id && txm.b.sequence == sequence
      requires code != Underpriced && code != FeeOutOfValidRange
      modifies txm, this`unknownErr
      ensures txm.Valid() && txm.started == old(txm.started)
      ensures Ended(txm, failed, id, sequence, a, code, old(unknownErr), unknownErrorRetryTimeout)
      ensures txm.ended == old(txm.ended) + EndOf(failed, id)
      ensures unknownErr == ErrAfter(old(unknownErr), a, code, id, sequence, unknownErrorRetryTimeout)
      ensures retryable <==> code != Unsupported
    {
      if code == Fatal || code == TerminallyStuck {
        failed := EndAsFatal(id, sequence, a.stored);
        retryable := true;
      } else if code == Successful || code == TransactionAlreadyKnown {
        failed := EndAsSent(id, sequence, a.stored, a.late);
        retryable := true;
      } else if code == InsufficientFunds || code == Retryable || code == Unsupported {
        retryable := LeaveInProgress(id, sequence, a, code);
        failed := true;
      } else {
        failed, retryable := HandleUnknown(id, sequence, a);
      }
      if !failed {
        txm.NothingInProgress();
      }
    }

    /** A bumped or newly estimated attempt takes the place of the rejected one and is sent in turn. */
    method ReplaceAndResend(id: TxId, state: TxState, sequence: int, a: Answer, retryCount: nat)
      returns (failed: bool, retryable: bool, ghost tries: nat)
      requires txm.Valid() && txm.b.BSending? && txm.b.id == id && txm.b.sequence == sequence
      modifies txm, this`unknownErr, this`pos
      ensures txm.Valid() && txm.started == old(txm.started) && txm.ended == old(txm.ended) + EndOf(failed, id)
      ensures SendEnds(failed, id, sequence, retryCount, tries, old(pos), old(unknownErr))
      ensures old(pos) < pos ==> a.built.Built? && a.stored
      ensures failed && state == InProgress ==> Excused(old(pos)) || (pos == old(pos) && Disturbs(a))
      ensures unknownErr == ErrAtEnd(id, sequence, tries, old(pos), old(unknownErr))
      ensures failed && pos < |script| && state == InProgress && pos == old(pos) ==>
                (retryable <==> a.built.Built? || (a.built.BuildFailed? && a.built.retryable))
      ensures failed && pos < |script| && state == InProgress && old(pos) < pos ==>
                (retryable <==> IsRetryable(sequence, tries, old(pos)))
      decreases |script| - pos, 1
    {
      tries := retryCount;
      txm.SendingIsInProgress();
      failed, retryable := ReplaceAttempt(a.built, a.stored);
      if !failed {
        failed, retryable, tries := HandleInProgressTx(id, state, sequence, a.built.aid, retryCount);
      }
    }

    /** ExceedsMaxFee, Unknown and every other code: trust the node's pending count, else retry or give up. */
    method HandleUnknown(id: TxId, sequence: int, a: Answer) returns (failed: bool, retryable: bool)
      requires txm.Valid() && txm.b.BSending? && txm.b.id == id && txm.b.sequence == sequence
      modifies txm, this`unknownErr
      ensures txm.Valid() && retryable
      ensures txm.started == old(txm.started) && txm.ended == old(txm.ended) + EndOf(failed, id)
      ensures failed ==> txm.b == BIdle && txm.Holds(id, InProgress, sequence)
      ensures failed && a.pending.Some? && a.pending.value > sequence ==> !a.stored
      ensures failed && a.pending.Some? && a.pending.value <= sequence ==>
                !(a.stored && HasLasted(old(unknownErr), id, a.now, unknownErrorRetryTimeout))
      ensures !failed ==> txm.b == BLoop && a.stored && a.pending.Some?
      ensures !failed ==> if IsSent(txm.State().db, id) then a.pending.value > sequence
                          else a.pending.value <= sequence && IsInState(txm.State().db, id, FatalError)
      ensures !failed && a.pending.value <= sequence ==> HasLasted(old(unknownErr), id, a.now, unknownErrorRetryTimeout)
      ensures forall code :: TreatedAsUnknown(code) ==>
                unknownErr == ErrAfter(old(unknownErr), a, code, id, sequence, unknownErrorRetryTimeout)
    {
      retryable := true;
      txm.SendingIsInProgress();
      if a.pending.None? {
        Bail();
        failed := true;
      } else if a.pending.value > sequence {
        failed := EndAsSent(id, sequence, a.stored, a.late);
      } else {
        var exceeded := RecordUnknownErr(id, a.now);
        if exceeded {
          failed := EndAsFatal(id, sequence, a.stored);
        } else {
          Bail();
          failed := true;
        }
      }
    }

    /** An end as fatal uses up an answer that may end a transaction. */
    lemma EndIsCaused(failed: bool, id: TxId, sequence: int, retryCount: nat, tries: nat, from: nat,
                      unknownErr: Option<UnknownErr>)
      requires SendEnds(failed, id, sequence, retryCount, tries, from, unknownErr)
      ensures |EndOf(failed, id)| + Endings(script, pos, hedera) <= Endings(script, from, hedera)
    {
      if from < pos {
        EndingsFrom(script, from, pos - 1, hedera);
      }
    }

    /** At most as many transactions ended as fatal as answers used may end one. */
    ghost predicate EndsAreCaused(ended: seq<TxId>, from: nat)
      reads this`pos, txm
    {
      |txm.ended| + Endings(script, pos, hedera) <= |ended| + Endings(script, from, hedera)
    }

    /** Resumes what an earlier pass or a crashed process left in progress: nothing, or one transaction whose send is
        finished or goes on in the next pass. */
    method HandleAnyInProgressTx()
      returns (failed: bool, retryable: bool, ghost resumed: Option<TxId>, ghost sequence: int, ghost tries: nat)
      requires txm.Valid() && txm.b == BIdle
      modifies txm, this`unknownErr, this`pos
      ensures txm.Valid() && old(pos) <= pos && txm.started == old(txm.started)
      ensures failed ==> txm.b == BIdle && Excused(old(pos))
      ensures !failed ==> txm.b == BLoop && NoneInProgress(txm.State().db) && !retryable
      ensures resumed.None? <==> NoneInProgress(old(txm.State()).db)
      ensures resumed.None? ==>
                && !failed && pos == old(pos) && txm.ended == old(txm.ended)
                && txm.State().db == old(txm.State()).db
      ensures resumed.Some? ==>
                && resumed.value in old(txm.txs)
                && old(txm.txs)[resumed.value] == Tx(InProgress, Some(sequence))
                && SendEnds(failed, resumed.value, sequence, 0, tries, old(pos), old(unknownErr))
                && txm.ended == old(txm.ended) + EndOf(failed, resumed.value)
    {
      resumed, sequence, tries := None, 0, 0;
      if !(exists id :: id in txm.txs && txm.txs[id].state == InProgress) {
        txm.Do(BNothingInProgress);
        failed, retryable := false, false;
      } else {
        var id :| id in txm.txs && txm.txs[id].state == InProgress;
        assert IsInState(txm.State().db, id, InProgress);
        resumed := Some(id);
        failed, retryable, sequence, tries := Resume(id);
      }
      if !failed {
        txm.NothingInProgress();
      }
    }

    method Resume(id: TxId) returns (failed: bool, retryable: bool, ghost sequence: int, ghost tries: nat)
      requires txm.Valid() && txm.b == BIdle && id in txm.txs && txm.txs[id].state == InProgress
      modifies txm, this`unknownErr, this`pos
      ensures txm.Valid() && old(pos) <= pos && txm.started == old(txm.started)
      ensures failed ==> txm.b == BIdle && Excused(old(pos))
      ensures !failed ==> txm.b == BLoop && !retryable
      ensures old(txm.txs)[id] == Tx(InProgress, Some(sequence))
      ensures SendEnds(failed, id, sequence, 0, tries, old(pos), old(unknownErr))
      ensures txm.ended == old(txm.ended) + EndOf(failed, id)
    {
      var aid := AttemptToResume(id);
      txm.Do(BResume(id, aid));
      sequence := txm.b.sequence;
      failed, retryable, tries := HandleInProgressTx(id, InProgress, txm.b.sequence, aid, 0);
      retryable := failed && retryable;
    }

    /** The only attempt of the transaction in progress. */
    method AttemptToResume(id: TxId) returns (aid: AttemptId)
      requires txm.Valid() && id in txm.txs && txm.txs[id].state == InProgress
      ensures TopAttempt(txm.State().db, aid, id) && txm.txs[id].sequence.Some?
    {
      txm.StateFits();
      assert IsInState(txm.State().db, id, InProgress);
      aid :| aid in txm.attempts && InProgressAttemptOf(txm.State().db, aid, id);
      OnlyAttemptIsTop(txm.State().db, aid, id);
    }

    /** What becomes of the picked transaction, by the answer to the first attempt.  Too low a fee limit or a failed
        check ends it unsent.  Otherwise it is put in progress and sent, unless it was removed meanwhile or the
        builder or the store fails. */
    ghost predicate UnstartedEnds(failed: bool, retryable: bool, id: TxId, sequence: int, tries: nat, from: nat,
                                  unknownErr: Option<UnknownErr>, started: seq<TxId>, ended: seq<TxId>)
      reads this`pos, txm
    {
      if from >= |script| then failed && pos == from && txm.started == started && txm.ended == ended
      else if txm.started == started + [id] then
        && GoesOut(script[from]) && script[from].stored
             && SendEnds(failed, id, sequence, 0, tries, from + 1, unknownErr)
        && txm.ended == ended + EndOf(failed, id)
      else
        && txm.started == started && pos == from + 1 && !IsSent(txm.State().db, id)
        && UnsentEnds(failed, retryable, id, script[from], ended)
    }

    ghost predicate UnsentEnds(failed: bool, retryable: bool, id: TxId, a: Answer, ended: seq<TxId>)
      reads txm
    {
      if EndsUnsent(a) then
        && (retryable <==> a.built.Built?)
        && (failed <==> !(a.stored && IsInState(txm.State().db, id, FatalError)))
        && (failed ==> !a.stored || id !in txm.txs)
        && txm.ended == if failed then ended else ended + [id]
      else
        && txm.ended == ended
        && (failed <==> !GoesOut(a) || id in txm.txs)
        && (GoesOut(a) && failed ==> retryable && (!a.stored || a.built.aid in txm.attempts))
        && (!GoesOut(a) ==> (retryable <==> a.built.BuildFailed? && a.built.retryable))
    }

    lemma UnstartedEndIsCaused(failed: bool, retryable: bool, id: TxId, sequence: int, tries: nat, from: nat,
                               unknownErr: Option<UnknownErr>, started: seq<TxId>, ended: seq<TxId>)
      requires UnstartedEnds(failed, retryable, id, sequence, tries, from, unknownErr, started, ended)
      ensures EndsAreCaused(ended, from)
    {
      if from < |script| {
        EndingsFrom(script, from, from, hedera);
        if txm.started == started + [id] {
          EndIsCaused(failed, id, sequence, 0, tries, from + 1, unknownErr);
        }
      }
    }

    /** Builds, checks and starts the picked transaction, then broadcasts it. */
    method HandleUnstartedTx() returns (failed: bool, retryable: bool, ghost tries: nat)
      requires txm.Valid() && txm.b.BPicked?
      modifies txm, this`unknownErr, this`pos
      ensures txm.Valid() && old(pos) <= pos
      ensures txm.b == if failed then BIdle else BLoop
      ensures (failed ==> Excused(old(pos))) && (!failed ==> old(pos) < |script|)
      ensures UnstartedEnds(failed, retryable, old(txm.b).id, old(txm.b).sequence, tries, old(pos), old(unknownErr),
                            old(txm.started), old(txm.ended))
      ensures old(pos) < |script| && (script[old(pos)].check == Rejected || script[old(pos)].built.FeeLimitTooLow?) ==>
                txm.started == old(txm.started) && !IsSent(txm.State().db, old(txm.b).id)
      ensures !failed && script[old(pos)].built.Built? && old(txm.b).id in txm.txs
              && (script[old(pos)].check == Passed || script[old(pos)].check == TimedOut) ==>
                && txm.started == old(txm.started) + [old(txm.b).id]
                && SendEnds(failed, old(txm.b).id, old(txm.b).sequence, 0, tries, old(pos) + 1, old(unknownErr))
    {
      tries := 0;
      if pos >= |script| {
        Bail();
        return true, false, tries;
      }
      var id, sequence := txm.b.id, txm.b.sequence;
      var a := Ask();
      if GoesOut(a) && a.stored && id in txm.txs && a.built.aid !in txm.attempts {
        failed, retryable, tries := StartAndSend(id, sequence, a);
      } else {
        failed, retryable := LeaveUnsent(id, a);
      }
    }

    /** Every way the picked transaction is not sent. */
    method LeaveUnsent(id: TxId, a: Answer) returns (failed: bool, retryable: bool)
      requires txm.Valid() && txm.b.BPicked? && txm.b.id == id
      requires !(GoesOut(a) && a.stored && id in txm.txs && a.built.aid !in txm.attempts)
      modifies txm
      ensures txm.Valid() && txm.b == if failed then BIdle else BLoop
      ensures txm.started == old(txm.started) && !IsSent(txm.State().db, id)
      ensures UnsentEnds(failed, retryable, id, a, old(txm.ended))
      ensures failed ==> Disturbs(a)
    {
      PickedIsUnsent();
      if a.built.FeeLimitTooLow? {
        failed := SaveFatallyErroredTransaction(a.stored);
        retryable := false;
      } else if a.built.BuildFailed? {
        Bail();
        failed, retryable := true, a.built.retryable;
      } else if a.check == BadChecker {
        Bail();
        failed, retryable := true, false;
      } else if a.check == Rejected {
        failed := SaveFatallyErroredTransaction(a.stored);
        retryable := true;
      } else if id !in txm.txs {
        txm.Do(BRemoved);
        failed, retryable := false, false;
      } else {
        Bail();
        failed, retryable := true, true;
      }
    }

    method StartAndSend(id: TxId, sequence: int, a: Answer) returns (failed: bool, retryable: bool, ghost tries: nat)
      requires txm.Valid() && txm.b == BPicked(id, sequence) && id in txm.txs
      requires a.built.Built? && a.built.aid !in txm.attempts
      modifies txm, this`unknownErr, this`pos
      ensures txm.Valid() && txm.started == old(txm.started) + [id] && txm.ended == old(txm.ended) + EndOf(failed, id)
      ensures txm.b == if failed then BIdle else BLoop
      ensures failed ==> Excused(old(pos))
      ensures SendEnds(failed, id, sequence, 0, tries, old(pos), old(unknownErr))
    {
      txm.Do(BStart(a.built.aid, a.built.fee));
      failed, retryable, tries := HandleInProgressTx(id, txm.txs[id].state, sequence, a.built.aid, 0);
    }

    lemma PickedIsUnsent()
      requires txm.Valid() && txm.b.BPicked?
      ensures !IsSent(txm.State().db, txm.b.id) && !IsInState(txm.State().db, txm.b.id, FatalError)
    {
      txm.StateFits();
    }

    /** One turn of the loop: throttled, or one transaction is picked and handled, or `done` as the queue is empty. */
    method HandleNext()
      returns (done: bool, failed: bool, retryable: bool, ghost picked: Option<TxId>, ghost tries: nat)
      requires txm.Valid() && txm.b == BLoop && pos < |script|
      modifies txm, this`unknownErr, this`pos
      ensures txm.Valid() && old(pos) < pos <= |script|
      ensures txm.b == if done || failed then BIdle else BLoop
      ensures done && !failed ==> Drained()
      ensures failed ==> Excused(old(pos))
      ensures picked.None? ==>
                pos == old(pos) + 1 && txm.started == old(txm.started) && txm.ended == old(txm.ended)
      ensures picked.None? && !done && !failed ==>
                txm.maxInFlight > 0 && CountState(txm.State().db, Unconfirmed) >= txm.maxInFlight
      ensures picked.Some? ==>
                && !done && script[old(pos)].found == picked
                && UnstartedEnds(failed, retryable, picked.value, old(txm.next), tries, old(pos) + 1, old(unknownErr),
                                 old(txm.started), old(txm.ended))
    {
      picked, tries := None, 0;
      var a := Ask();
      var throttled := Throttle(a.late);
      if throttled {
        return false, false, false, picked, tries;   // look again later
      }
      if a.found.Some? && IsInState(txm.State().db, a.found.value, Unstarted) {
        picked, done := a.found, false;
        failed, retryable, tries := PickNext(a.found.value);
      } else {
        done := NothingFound();
        failed, retryable := !done, !done;
      }
    }

    /** The picked transaction is to get the next sequence. */
    method PickNext(id: TxId) returns (failed: bool, retryable: bool, ghost tries: nat)
      requires txm.Valid() && txm.b == BAllowed && IsInState(txm.State().db, id, Unstarted)
      modifies txm, this`unknownErr, this`pos
      ensures txm.Valid() && old(pos) <= pos && (pos <= |script| || pos == old(pos))
      ensures txm.b == if failed then BIdle else BLoop
      ensures failed ==> Excused(old(pos))
      ensures UnstartedEnds(failed, retryable, id, old(txm.next), tries, old(pos), old(unknownErr), old(txm.started),
                            old(txm.ended))
    {
      Pick(id);
      failed, retryable, tries := HandleUnstartedTx();
    }

    method Pick(id: TxId)
      requires txm.Valid() && txm.b == BAllowed && IsInState(txm.State().db, id, Unstarted)
      modifies txm
      ensures txm.Valid() && txm.b == BPicked(id, old(txm.next))
      ensures txm.started == old(txm.started) && txm.ended == old(txm.ended)
    {
      txm.Do(BPick(id));
    }

    /** At most `maxInFlight` transactions are to be unconfirmed; 0 sets no limit. */
    method Throttle(late: seq<Step>) returns (throttled: bool)
      requires txm.Valid() && txm.b == BLoop
      modifies txm
      ensures txm.Valid() && txm.b == (if throttled then BLoop else BAllowed) && txm.next == old(txm.next)
      ensures txm.started == old(txm.started) && txm.ended == old(txm.ended)
      ensures throttled <==>
                txm.maxInFlight > 0 && CountState(old(txm.State()).db, Unconfirmed) >= txm.maxInFlight
      ensures throttled ==> txm.State().db == old(txm.State()).db
    {
      throttled := txm.maxInFlight > 0 && CountState(txm.State().db, Unconfirmed) >= txm.maxInFlight;
      if !throttled {
        txm.Do(BCount);
        txm.Yield(TheBroadcaster, late);
      }
    }

    /** The query found nothing: the pass is over if there is nothing. */
    method NothingFound() returns (drained: bool)
      requires txm.Valid() && txm.b == BAllowed
      modifies txm
      ensures txm.Valid() && txm.b == BIdle && txm.State().db == old(txm.State()).db
      ensures txm.started == old(txm.started) && txm.ended == old(txm.ended)
      ensures if drained then Drained() else HasUnstarted()
    {
      drained := forall id | id in txm.txs :: txm.txs[id].state != Unstarted;
      if drained {
        EmptyQueueIsDrained();
      }
      Bail();
    }

    lemma EmptyQueueIsDrained()
      requires txm.Valid() && txm.b == BAllowed && forall id :: id in txm.txs ==> txm.txs[id].state != Unstarted
      ensures Drained()
    {
      txm.NothingInProgress();
      assert forall id :: id in txm.txs ==> !IsInState(txm.State().db, id, InProgress);
    }

    ghost predicate Drained()
      reads txm
    {
      forall id :: id in txm.txs ==> txm.txs[id].state != InProgress && txm.txs[id].state != Unstarted
    }

    /** One pass over the queue.  When it reports no error, nothing is in progress and nothing unstarted is left.
        No more transactions end as fatal than answers may end one, and an error has a cause. */
    method ProcessUnstartedTxs() returns (failed: bool, retryable: bool)
      requires txm.Valid() && txm.b == BIdle
      modifies txm, this`unknownErr, this`pos
      ensures txm.Valid() && txm.b == BIdle && old(pos) <= pos
      ensures !failed ==> Drained()
      ensures failed ==> Excused(old(pos))
      ensures EndsAreCaused(old(txm.ended), old(pos))
    {
      ghost var resumed, sequence, tries;
      failed, retryable, resumed, sequence, tries := HandleAnyInProgressTx();
      if resumed.Some? {
        EndIsCaused(failed, resumed.value, sequence, 0, tries, old(pos), old(unknownErr));
      }
      if failed {
        return;
      }
      while pos < |script|
        invariant txm.Valid() && txm.b == BLoop && old(pos) <= pos
        invariant EndsAreCaused(old(txm.ended), old(pos))
        decreases |script| - pos
      {
        var done;
        done, failed, retryable := HandleOne();
        if done || failed {
          return;
        }
      }
      Bail();
      return true, false;
    }

    /** One turn, with the account of what it ended. */
    method HandleOne() returns (done: bool, failed: bool, retryable: bool)
      requires txm.Valid() && txm.b == BLoop && pos < |script|
      modifies txm, this`unknownErr, this`pos
      ensures txm.Valid() && old(pos) < pos
      ensures txm.b == if done || failed then BIdle else BLoop
      ensures done && !failed ==> Drained()
      ensures failed ==> Excused(old(pos))
      ensures EndsAreCaused(old(txm.ended), old(pos))
    {
      ghost var picked, tries;
      done, failed, retryable, picked, tries := HandleNext();
      EndingsFrom(script, old(pos), old(pos), hedera);
      if picked.Some? {
        UnstartedEndIsCaused(failed, retryable, picked.value, old(txm.next), tries, old(pos) + 1, old(unknownErr),
                             old(txm.started), old(txm.ended));
      }
    }
  }

  lemma OnlyAttemptIsTop(db: Db, aid: AttemptId, id: TxId)
    requires AttemptsFit(db) && InProgressAttemptOf(db, aid, id)
    ensures TopAttempt(db, aid, id)
  {
    forall other | other in db.attempts && AttemptOf(db, other, id)
      ensures db.attempts[other].fee <= db.attempts[aid].fee
    {
      assert Siblings(db, aid, other);
    }
  }
}
