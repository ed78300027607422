/** The transaction store as a value (chains/txmgr/types/tx_store.go): the transactions and attempts
    of one address, and what each update of the store does to them when it succeeds.  An update that
    returns an error leaves the store as it was. */
module TxStore {
  import opened Wrappers

  type TxId = int
  type AttemptId = int

  datatype TxState =
    | Unstarted | InProgress | FatalError | Unconfirmed | Confirmed | ConfirmedMissingReceipt | Finalized

  datatype AttemptState = AttemptInProgress | AttemptInsufficientFunds | AttemptBroadcast

  datatype Tx = Tx(state: TxState, sequence: Option<int>)

  datatype Attempt = Attempt(txId: TxId, state: AttemptState, fee: int, isPurge: bool)

  datatype Db = Db(txs: map<TxId, Tx>, attempts: map<AttemptId, Attempt>)

  /** The transaction left in_progress by being broadcast: it holds its sequence for good. */
  predicate Sent(tx: Tx) {
    tx.sequence.Some? && tx.state != InProgress
  }

  predicate IsSent(db: Db, id: TxId) {
    id in db.txs && Sent(db.txs[id])
  }

  predicate IsInState(db: Db, id: TxId, state: TxState) {
    id in db.txs && db.txs[id].state == state
  }

  /** `aid` is an attempt of transaction `id`. */
  predicate AttemptOf(db: Db, aid: AttemptId, id: TxId) {
    aid in db.attempts && db.attempts[aid].txId == id
  }

  predicate InProgressAttemptOf(db: Db, aid: AttemptId, id: TxId) {
    AttemptOf(db, aid, id) && db.attempts[aid].state == AttemptInProgress
  }

  predicate HasInProgressAttempt(db: Db, id: TxId) {
    exists aid | aid in db.attempts :: InProgressAttemptOf(db, aid, id)
  }

  /** `aid` is what the store returns as TxAttempts[0]: attempts are ordered by fee, highest first. */
  predicate TopAttempt(db: Db, aid: AttemptId, id: TxId) {
    && AttemptOf(db, aid, id)
    && forall other | other in db.attempts :: AttemptOf(db, other, id) ==>
         db.attempts[other].fee <= db.attempts[aid].fee
  }

  predicate HasPurgeAttempt(db: Db, id: TxId) {
    exists aid | aid in db.attempts :: AttemptOf(db, aid, id) && db.attempts[aid].isPurge
  }

  function SetStates(txs: map<TxId, Tx>, ids: set<TxId>, state: TxState): map<TxId, Tx> {
    map id | id in txs :: if id in ids then txs[id].(state := state) else txs[id]
  }

  function SetAttempts(attempts: map<AttemptId, Attempt>, aids: set<AttemptId>, state: AttemptState)
    : map<AttemptId, Attempt>
  {
    map aid | aid in attempts :: if aid in aids then attempts[aid].(state := state) else attempts[aid]
  }

  function CreateTransaction(db: Db, id: TxId): Db {
    db.(txs := db.txs[id := Tx(Unstarted, None)])
  }

  function RemoveTransaction(db: Db, id: TxId): Db {
    db.(txs := db.txs - {id})
  }

  function UpdateTxUnstartedToInProgress(db: Db, id: TxId, sequence: int, aid: AttemptId, fee: int): Db {
    Db(db.txs[id := Tx(InProgress, Some(sequence))],
       db.attempts[aid := Attempt(id, AttemptInProgress, fee, false)])
  }

  function UpdateTxAttemptInProgressToBroadcast(db: Db, id: TxId, aid: AttemptId): Db {
    Db(SetStates(db.txs, {id}, Unconfirmed), SetAttempts(db.attempts, {aid}, AttemptBroadcast))
  }

  /** Deletes all attempts and clears the sequence. */
  function UpdateTxFatalErrorAndDeleteAttempts(db: Db, id: TxId): Db {
    Db(db.txs[id := Tx(FatalError, None)],
       map aid | aid in db.attempts && db.attempts[aid].txId != id :: db.attempts[aid])
  }

  /** Keeps the attempts and the sequence. */
  function UpdateTxFatalError(db: Db, ids: set<TxId>): Db {
    db.(txs := SetStates(db.txs, ids, FatalError))
  }

  function UpdateTxConfirmed(db: Db, ids: set<TxId>): Db {
    db.(txs := SetStates(db.txs, ids, Confirmed))
  }

  function UpdateTxsForRebroadcast(db: Db, ids: set<TxId>, aids: set<AttemptId>): Db {
    Db(SetStates(db.txs, ids, Unconfirmed), SetAttempts(db.attempts, aids, AttemptInProgress))
  }

  function SaveInProgressAttempt(db: Db, aid: AttemptId, attempt: Attempt): Db {
    db.(attempts := db.attempts[aid := attempt.(state := AttemptInProgress)])
  }

  function SaveReplacementInProgressAttempt(db: Db, replaced: AttemptId, aid: AttemptId, attempt: Attempt): Db {
    db.(attempts := (db.attempts - {replaced})[aid := attempt.(state := AttemptInProgress)])
  }

  function SaveSentAttempt(db: Db, aid: AttemptId): Db {
    db.(attempts := SetAttempts(db.attempts, {aid}, AttemptBroadcast))
  }

  function SaveConfirmedAttempt(db: Db, id: TxId, aid: AttemptId): Db {
    Db(SetStates(db.txs, {id}, Confirmed), SetAttempts(db.attempts, {aid}, AttemptBroadcast))
  }

  function SaveInsufficientFundsAttempt(db: Db, aid: AttemptId): Db {
    db.(attempts := SetAttempts(db.attempts, {aid}, AttemptInsufficientFunds))
  }

  function DeleteInProgressAttempt(db: Db, aid: AttemptId): Db {
    db.(attempts := db.attempts - {aid})
  }
}
