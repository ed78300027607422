/** The store, the sequence tracker and the two control points as one shared object.  Its ghost `run` records
    every step taken since the address was first used, so whatever the Broadcaster's and the Confirmer's code
    does to it is a run of the protocol. */
module TxManager {
  import opened Wrappers
  import opened TxStore
  import opened TxProtocol

  datatype Actor = TheBroadcaster | TheConfirmer

  /** What may happen while `actor` waits: any step of the other goroutines. */
  predicate OfOthers(actor: Actor, s: Step) {
    match actor
    case TheBroadcaster => !OfBroadcaster(s)
    case TheConfirmer => !OfConfirmer(s)
  }

  /** The transaction for which the Confirmer puts an attempt in progress outside the handling of one. */
  function RaisedBy(s: Step): seq<TxId> {
    if s.CSaveBump? || s.CResubmit? || s.CSaveStuck? then [s.id] else []
  }

  /** The transaction the Broadcaster puts in progress. */
  function StartedBy(m: Machine, s: Step): seq<TxId>
    requires Enabled(m, s)
  {
    if s.BStart? then [m.b.id] else []
  }

  /** The transaction the Broadcaster gives up for good. */
  function EndedBy(m: Machine, s: Step): seq<TxId>
    requires Enabled(m, s)
  {
    if s.BFatal? then [m.b.id] else []
  }

  /** What others may do to a broadcast transaction while the Confirmer waits. */
  predicate SameOrFinalized(tx: Tx, tx': Tx) {
    tx' == tx || (tx.state == Confirmed && tx' == tx.(state := Finalized))
  }

  ghost predicate OnlyFinalized(db: Db, db': Db) {
    forall id :: IsSent(db, id) ==> IsSent(db', id) && SameOrFinalized(db.txs[id], db'.txs[id])
  }

  class Manager {
    var txs: map<TxId, Tx>
    var attempts: map<AttemptId, Attempt>
    var next: int
    var b: BroadcasterAt
    var c: ConfirmerAt
    const base: int
    const maxInFlight: nat
    ghost const origin: Machine
    ghost var run: seq<Step>
    ghost var raised: seq<TxId>       // whose attempts the run put in progress, in order
    ghost var started: seq<TxId>      // what the run put in progress
    ghost var ended: seq<TxId>        // what the Broadcaster ended as fatal

    constructor (base: int, maxInFlight: nat)
      ensures Valid() && run == [] && raised == [] && started == [] && ended == [] && Init(State())
      ensures this.base == base && this.maxInFlight == maxInFlight
    {
      txs, attempts, next, b, c := map[], map[], base, BIdle, CIdle;
      this.base, this.maxInFlight := base, maxInFlight;
      origin := Machine(Db(map[], map[]), base, base, maxInFlight, BIdle, CIdle);
      run, raised, started, ended := [], [], [], [];
    }

    function State(): Machine
      reads this
    {
      Machine(Db(txs, attempts), base, next, maxInFlight, b, c)
    }

    ghost predicate Valid()
      reads this
    {
      Init(origin) && Exec(origin, run) == Some(State())
    }

    lemma StateFits()
      requires Valid()
      ensures Inv(State())
    {
      RunKeepsInv(origin, run);
    }

    lemma NothingInProgress()
      requires Valid() && (b.BLoop? || b.BAllowed?)
      ensures NoneInProgress(State().db)
    {
      RunKeepsInv(origin, run);
    }

    lemma SendingIsInProgress()
      requires Valid() && b.BSending?
      ensures Holds(b.id, InProgress, b.sequence)
    {
      RunKeepsInv(origin, run);
    }

    lemma StepKeeps(s: Step)
      requires Valid() && Enabled(State(), s)
      ensures forall id :: IsSent(State().db, id) ==> IsSent(Apply(State(), s).db, id)
      ensures !OfConfirmer(s) ==> OnlyFinalized(State().db, Apply(State(), s).db)
    {
      StateFits();
      forall id | IsSent(State().db, id) ensures IsSent(Apply(State(), s).db, id) {
        StepKeepsSent(State(), s, id);
      }
    }

    ghost predicate Holds(id: TxId, state: TxState, sequence: int)
      reads this
    {
      id in txs && txs[id] == Tx(state, Some(sequence))
    }

    /** One store update, tracker update or deciding read. */
    method Do(s: Step)
      requires Valid() && Enabled(State(), s)
      modifies this
      ensures Valid() && State() == Apply(old(State()), s) && run == old(run) + [s]
      ensures raised == old(raised) + RaisedBy(s)
      ensures started == old(started) + StartedBy(old(State()), s) && ended == old(ended) + EndedBy(old(State()), s)
    {
      var m := Apply(State(), s);
      started, ended := started + StartedBy(State(), s), ended + EndedBy(State(), s);
      ApplyKeepsConfig(State(), s);
      ExecExtends(origin, run, s);
      txs, attempts, next, b, c := m.db.txs, m.db.attempts, m.next, m.b, m.c;
      run, raised := run + [s], raised + RaisedBy(s);
    }

    /** The other goroutines take those of the given steps that are theirs and possible. */
    method Yield(actor: Actor, steps: seq<Step>)
      requires Valid()
      modifies this
      ensures Valid()
      ensures actor == TheBroadcaster ==>
                b == old(b) && next == old(next) && started == old(started) && ended == old(ended)
      ensures actor == TheConfirmer ==> c == old(c) && raised == old(raised)
      ensures forall id :: IsSent(old(State()).db, id) ==> IsSent(State().db, id)
      ensures actor == TheConfirmer ==> OnlyFinalized(old(State()).db, State().db)
    {
      for i := 0 to |steps|
        invariant Valid()
        invariant actor == TheBroadcaster ==> b == old(b) && next == old(next)
        invariant actor == TheBroadcaster ==> started == old(started) && ended == old(ended)
        invariant actor == TheConfirmer ==> c == old(c) && raised == old(raised)
        invariant forall id :: IsSent(old(State()).db, id) ==> IsSent(State().db, id)
        invariant actor == TheConfirmer ==> OnlyFinalized(old(State()).db, State().db)
      {
        if OfOthers(actor, steps[i]) && Enabled(State(), steps[i]) {
          StepKeeps(steps[i]);
          Do(steps[i]);
        }
      }
    }
  }
}
