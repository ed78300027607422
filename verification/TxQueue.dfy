/** Creation of transactions under a queueing strategy (chains/txmgr/txmgr.go, strategies.go): pruning and inserting
    are two store calls under one mutex, while the Broadcaster picks up unstarted transactions at any moment. */
module TxQueue {
  import opened Wrappers

  const MAX_UINT32 := 0xFFFF_FFFF

  type uint32 = x: int | 0 <= x <= MAX_UINT32

  type Subject = nat

  /** `id` grows with creation. */
  datatype Tx = Tx(id: nat, subject: Option<Subject>)

  /** No subject: SendEveryStrategy, which never prunes. */
  datatype Creation = Pruning(subject: Option<Subject>) | Inserting(subject: Option<Subject>)

  /** The unstarted transactions, oldest first, and the creation that holds the mutex. */
  datatype Queue = Queue(unstarted: seq<Tx>, holder: Option<Creation>, nextId: nat)

  /** The queueSize of each subject's DropOldestStrategy. */
  type Sizes = Subject -> uint32

  datatype Step =
    | Begin(subject: Option<Subject>)
    | Prune
    | Insert
    | Fail                    // the store call returns an error
    | PickUp(i: nat)

  function OfSubject(q: seq<Tx>, s: Subject): seq<Tx> {
    if q == [] then [] else OfSubject(q[..|q| - 1], s) + if q[|q| - 1].subject == Some(s) then [q[|q| - 1]] else []
  }

  /** PruneUnstartedTxQueue: all but the newest `keep` of the subject go. */
  function Pruned(q: seq<Tx>, s: Subject, keep: nat): seq<Tx> {
    if q == [] then []
    else if q[|q| - 1].subject != Some(s) then Pruned(q[..|q| - 1], s, keep) + [q[|q| - 1]]
    else if keep > 0 then Pruned(q[..|q| - 1], s, keep - 1) + [q[|q| - 1]]
    else Pruned(q[..|q| - 1], s, 0)
  }

  /** queueSize - 1, in uint32. */
  function Kept(size: uint32): uint32 { if size == 0 then MAX_UINT32 else size - 1 }

  predicate Enabled(q: Queue, step: Step) {
    match step
    case Begin(_) => q.holder == None
    case Prune => q.holder.Some? && q.holder.value.Pruning?
    case Insert => q.holder.Some? && q.holder.value.Inserting?
    case Fail => q.holder.Some?
    case PickUp(i) => i < |q.unstarted|
  }

  function Apply(sizes: Sizes, q: Queue, step: Step): Queue
    requires Enabled(q, step)
  {
    match step
    case Begin(subject) => q.(holder := Some(Pruning(subject)))
    case Prune =>
      var subject := q.holder.value.subject;
      q.(holder := Some(Inserting(subject)),
         unstarted := if subject.Some? then Pruned(q.unstarted, subject.value, Kept(sizes(subject.value)))
                      else q.unstarted)
    case Insert => Queue(q.unstarted + [Tx(q.nextId, q.holder.value.subject)], None, q.nextId + 1)
    case Fail => q.(holder := None)
    case PickUp(i) => q.(unstarted := q.unstarted[..i] + q.unstarted[i + 1..])
  }

  function Exec(sizes: Sizes, q: Queue, run: seq<Step>): Option<Queue> {
    if run == [] then Some(q)
    else
      var before := Exec(sizes, q, run[..|run| - 1]);
      if before.Some? && Enabled(before.value, run[|run| - 1])
      then Some(Apply(sizes, before.value, run[|run| - 1]))
      else None
  }

  const EMPTY := Queue([], None, 0)

  // ----- what a prune drops -----

  function Newest(q: seq<Tx>, keep: nat): seq<Tx> {
    if |q| <= keep then q else q[|q| - keep..]
  }

  lemma NewestOfMore(q: seq<Tx>, tx: Tx, keep: nat)
    ensures Newest(q + [tx], keep + 1) == Newest(q, keep) + [tx]
  {
  }

  /** A prune drops only the oldest of the subject: what is left of it is its newest `keep`, or all of it if it has
      fewer. */
  lemma {:induction false} PruneDropsOldest(q: seq<Tx>, s: Subject, keep: nat)
    ensures OfSubject(Pruned(q, s, keep), s) == Newest(OfSubject(q, s), keep)
  {
    if q != [] {
      var front, last := q[..|q| - 1], q[|q| - 1];
      if last.subject == Some(s) && keep == 0 {
        PruneDropsOldest(front, s, 0);
      } else {
        var keep' := if last.subject == Some(s) then keep - 1 else keep;
        PruneDropsOldest(front, s, keep');
        KeptOfMore(OfSubject(front, s), Pruned(front, s, keep'), last, s, keep');
      }
    }
  }

  /** The last transaction is kept. */
  lemma KeptOfMore(ofFront: seq<Tx>, pruned: seq<Tx>, last: Tx, s: Subject, keep: nat)
    requires OfSubject(pruned, s) == Newest(ofFront, keep)
    ensures OfSubject(pruned + [last], s) ==
              if last.subject == Some(s) then Newest(ofFront + [last], keep + 1) else Newest(ofFront, keep)
  {
    OfMore(pruned, last, s);
    NewestOfMore(ofFront, last, keep);
  }

  /** A prune leaves every other subject alone. */
  lemma {:induction false} PruneSparesOthers(q: seq<Tx>, s: Subject, keep: nat, t: Subject)
    requires t != s
    ensures OfSubject(Pruned(q, s, keep), t) == OfSubject(q, t)
  {
    if q != [] {
      var front, last := q[..|q| - 1], q[|q| - 1];
      var keep' := if last.subject == Some(s) && keep > 0 then keep - 1 else keep;
      PruneSparesOthers(front, s, keep', t);
      OfMore(Pruned(front, s, keep'), last, t);
    }
  }

  /** The transactions that are not of the subject, with those of none. */
  function Without(q: seq<Tx>, s: Subject): seq<Tx> {
    if q == [] then [] else Without(q[..|q| - 1], s) + if q[|q| - 1].subject == Some(s) then [] else [q[|q| - 1]]
  }

  /** A prune leaves all that is not of the subject, in its order. */
  lemma {:induction false} PruneKeepsRest(q: seq<Tx>, s: Subject, keep: nat)
    ensures Without(Pruned(q, s, keep), s) == Without(q, s)
  {
    if q != [] {
      var front, last := q[..|q| - 1], q[|q| - 1];
      var keep' := if last.subject == Some(s) && keep > 0 then keep - 1 else keep;
      PruneKeepsRest(front, s, keep');
      WithoutOfMore(Pruned(front, s, keep'), last, s);
    }
  }

  lemma WithoutOfMore(q: seq<Tx>, tx: Tx, s: Subject)
    ensures Without(q + [tx], s) == Without(q, s) + if tx.subject == Some(s) then [] else [tx]
  {
    assert (q + [tx])[..|q|] == q;
  }

  lemma OfMore(q: seq<Tx>, tx: Tx, s: Subject)
    ensures OfSubject(q + [tx], s) == OfSubject(q, s) + if tx.subject == Some(s) then [tx] else []
  {
    assert (q + [tx])[..|q|] == q;
  }

  lemma {:induction false} PickUpKeeps(q: seq<Tx>, i: nat, s: Subject)
    requires i < |q|
    ensures |OfSubject(q[..i] + q[i + 1..], s)| <= |OfSubject(q, s)|
  {
    var front, last := q[..|q| - 1], q[|q| - 1];
    if i == |q| - 1 {
      assert q[..i] + q[i + 1..] == front;
    } else {
      PickUpKeeps(front, i, s);
      assert q[..i] + q[i + 1..] == (front[..i] + front[i + 1..]) + [last];
      OfMore(front[..i] + front[i + 1..], last, s);
    }
  }

  // ----- every run -----

  /** The most a subject may have: its queue size, or 2^32 for a queue of size 0. */
  function Limit(size: uint32): nat { Kept(size) + 1 }

  function Count(q: Queue, s: Subject): nat { |OfSubject(q.unstarted, s)| }

  predicate Fits(sizes: Sizes, q: Queue, s: Subject) {
    Count(q, s) <= Limit(sizes(s)) && (q.holder == Some(Inserting(Some(s))) ==> Count(q, s) <= Kept(sizes(s)))
  }

  lemma StepKeepsFit(sizes: Sizes, q: Queue, step: Step, s: Subject)
    requires Enabled(q, step) && Fits(sizes, q, s)
    ensures Fits(sizes, Apply(sizes, q, step), s)
  {
    match step
    case Prune =>
      var subject := q.holder.value.subject;
      if subject == Some(s) {
        PruneDropsOldest(q.unstarted, s, Kept(sizes(s)));
      } else if subject.Some? {
        PruneSparesOthers(q.unstarted, subject.value, Kept(sizes(subject.value)), s);
      }
    case Insert => OfMore(q.unstarted, Tx(q.nextId, q.holder.value.subject), s);
    case PickUp(i) => PickUpKeeps(q.unstarted, i, s);
    case _ =>
  }

  lemma {:induction false} RunKeepsFit(sizes: Sizes, run: seq<Step>, s: Subject)
    requires Exec(sizes, EMPTY, run).Some?
    ensures Fits(sizes, Exec(sizes, EMPTY, run).value, s)
  {
    if run != [] {
      RunKeepsFit(sizes, run[..|run| - 1], s);
      StepKeepsFit(sizes, Exec(sizes, EMPTY, run[..|run| - 1]).value, run[|run| - 1], s);
    }
  }

  // ----- the order of creation -----

  predicate IdsAscend(q: seq<Tx>) {
    forall i, j :: 0 <= i < j < |q| ==> q[i].id < q[j].id
  }

  /** The queue is in the order of creation. */
  predicate InOrder(q: Queue) {
    IdsAscend(q.unstarted) && forall i :: 0 <= i < |q.unstarted| ==> q.unstarted[i].id < q.nextId
  }

  /** What is left of a queue in order is in order. */
  lemma {:induction false} PrunedIsInOrder(q: seq<Tx>, s: Subject, keep: nat)
    requires IdsAscend(q)
    ensures IdsAscend(Pruned(q, s, keep)) && forall tx :: tx in Pruned(q, s, keep) ==> tx in q
  {
    if q != [] {
      var front, last := q[..|q| - 1], q[|q| - 1];
      var keep' := if last.subject == Some(s) && keep > 0 then keep - 1 else keep;
      PrunedIsInOrder(front, s, keep');
      var pruned := Pruned(front, s, keep');
      forall i | 0 <= i < |pruned| ensures pruned[i].id < last.id {
        assert pruned[i] in front;
      }
    }
  }

  lemma {:induction false} PrunedToNone(q: seq<Tx>, s: Subject)
    ensures forall tx :: tx in Pruned(q, s, 0) ==> tx.subject != Some(s)
  {
    if q != [] { PrunedToNone(q[..|q| - 1], s); }
  }

  /** What a prune of a queue in order drops is of the subject and older than all it keeps of it. */
  lemma {:induction false} DroppedIsOlder(q: seq<Tx>, s: Subject, keep: nat, tx: Tx)
    requires IdsAscend(q) && tx in q && tx !in Pruned(q, s, keep)
    ensures tx.subject == Some(s)
    ensures forall kept :: kept in Pruned(q, s, keep) && kept.subject == Some(s) ==> tx.id < kept.id
  {
    var front, last := q[..|q| - 1], q[|q| - 1];
    if last.subject != Some(s) {
      DroppedIsOlder(front, s, keep, tx);
    } else if keep > 0 {
      DroppedIsOlder(front, s, keep - 1, tx);
    } else {
      if tx in front && tx !in Pruned(front, s, 0) { DroppedIsOlder(front, s, 0, tx); }
      PrunedToNone(q, s);
    }
  }

  lemma StepKeepsOrder(sizes: Sizes, q: Queue, step: Step)
    requires Enabled(q, step) && InOrder(q)
    ensures InOrder(Apply(sizes, q, step))
  {
    if step.Prune? && q.holder.value.subject.Some? {
      var s := q.holder.value.subject.value;
      PrunedIsInOrder(q.unstarted, s, Kept(sizes(s)));
      var pruned := Pruned(q.unstarted, s, Kept(sizes(s)));
      forall i | 0 <= i < |pruned| ensures pruned[i].id < q.nextId {
        assert pruned[i] in q.unstarted;
      }
    }
  }

  lemma {:induction false} RunKeepsOrder(sizes: Sizes, run: seq<Step>)
    requires Exec(sizes, EMPTY, run).Some?
    ensures InOrder(Exec(sizes, EMPTY, run).value)
  {
    if run != [] {
      RunKeepsOrder(sizes, run[..|run| - 1]);
      StepKeepsOrder(sizes, Exec(sizes, EMPTY, run[..|run| - 1]).value, run[|run| - 1]);
    }
  }

  /** In every run, a prune for a subject drops only transactions of that subject, each created before all of the
      subject that it keeps; everything else stays, in the order of creation. */
  lemma {:induction false} PruneDropsEarliest(sizes: Sizes, run: seq<Step>, s: Subject)
    requires Exec(sizes, EMPTY, run).Some? && Exec(sizes, EMPTY, run).value.holder == Some(Pruning(Some(s)))
    ensures var q := Exec(sizes, EMPTY, run).value; var q' := Apply(sizes, q, Prune);
            && IdsAscend(q'.unstarted) && (forall tx :: tx in q'.unstarted ==> tx in q.unstarted)
            && Without(q'.unstarted, s) == Without(q.unstarted, s)
            && forall tx :: tx in q.unstarted && tx !in q'.unstarted ==>
                 && tx.subject == Some(s)
                 && forall kept :: kept in q'.unstarted && kept.subject == Some(s) ==> tx.id < kept.id
  {
    RunKeepsOrder(sizes, run);
    var q, keep := Exec(sizes, EMPTY, run).value, Kept(sizes(s));
    PrunedIsInOrder(q.unstarted, s, keep);
    PruneKeepsRest(q.unstarted, s, keep);
    forall tx | tx in q.unstarted && tx !in Pruned(q.unstarted, s, keep)
      ensures tx.subject == Some(s)
      ensures forall kept :: kept in Pruned(q.unstarted, s, keep) && kept.subject == Some(s) ==> tx.id < kept.id
    {
      DroppedIsOlder(q.unstarted, s, keep, tx);
    }
  }

  // ----- what becomes of each creation -----

  function Inserts(run: seq<Step>): nat {
    if run == [] then 0 else Inserts(run[..|run| - 1]) + if run[|run| - 1].Insert? then 1 else 0
  }

  function PickUps(run: seq<Step>): nat {
    if run == [] then 0 else PickUps(run[..|run| - 1]) + if run[|run| - 1].PickUp? then 1 else 0
  }

  /** Creations begun and neither completed nor failed. */
  function Open(run: seq<Step>): int {
    if run == [] then 0
    else
      var last := run[|run| - 1];
      Open(run[..|run| - 1]) + if last.Begin? then 1 else if last.Insert? || last.Fail? then -1 else 0
  }

  lemma {:induction false} PrunedIsNoLonger(q: seq<Tx>, s: Subject, keep: nat)
    ensures |Pruned(q, s, keep)| <= |q|
  {
    if q != [] {
      PrunedIsNoLonger(q[..|q| - 1], s, if q[|q| - 1].subject == Some(s) && keep > 0 then keep - 1 else keep);
    }
  }

  /** In every run one creation is open at a time, exactly while the mutex is held; every transaction got the next id,
      and what was picked up is no longer unstarted. */
  lemma {:induction false} RunIsAccounted(sizes: Sizes, run: seq<Step>)
    requires Exec(sizes, EMPTY, run).Some?
    ensures var q := Exec(sizes, EMPTY, run).value;
            && Open(run) == (if q.holder.Some? then 1 else 0)
            && q.nextId == Inserts(run) && |q.unstarted| + PickUps(run) <= Inserts(run)
  {
    if run != [] {
      RunIsAccounted(sizes, run[..|run| - 1]);
      var q := Exec(sizes, EMPTY, run[..|run| - 1]).value;
      if run[|run| - 1].Prune? && q.holder.value.subject.Some? {
        var s := q.holder.value.subject.value;
        PrunedIsNoLonger(q.unstarted, s, Kept(sizes(s)));
      }
    }
  }

  // ----- how many there may be -----

  lemma Then(sizes: Sizes, run: seq<Step>, now: Queue, step: Step) returns (run': seq<Step>, next: Queue)
    requires Exec(sizes, EMPTY, run) == Some(now) && Enabled(now, step)
    ensures next == Apply(sizes, now, step) && Exec(sizes, EMPTY, run') == Some(next)
  {
    run', next := run + [step], Apply(sizes, now, step);
    assert run'[..|run|] == run && run'[|run|] == step;
  }

  /** Creations alone fill the queue up to its limit: as long as there is room, a prune drops nothing. */
  lemma {:induction false} Filled(sizes: Sizes, s: Subject, k: nat) returns (run: seq<Step>, q: Queue)
    requires k <= Limit(sizes(s))
    ensures Exec(sizes, EMPTY, run) == Some(q) && q.holder == None && Count(q, s) == k
  {
    if k == 0 {
      run, q := [], EMPTY;
    } else {
      run, q := Filled(sizes, s, k - 1);
      PruneDropsOldest(q.unstarted, s, Kept(sizes(s)));
      run, q := Then(sizes, run, q, Begin(Some(s)));
      run, q := Then(sizes, run, q, Prune);
      OfMore(q.unstarted, Tx(q.nextId, Some(s)), s);
      run, q := Then(sizes, run, q, Insert);
    }
  }

  ghost predicate Reachable(sizes: Sizes, s: Subject, k: nat) {
    exists run :: Exec(sizes, EMPTY, run).Some? && Count(Exec(sizes, EMPTY, run).value, s) == k
  }

  /** Over every interleaving of creations and pick-ups, the numbers of unstarted transactions a subject may have
      are exactly those up to its limit. */
  lemma ReachableIff(sizes: Sizes, s: Subject, k: nat)
    ensures Reachable(sizes, s, k) <==> k <= Limit(sizes(s))
  {
    if k <= Limit(sizes(s)) {
      var run, q := Filled(sizes, s, k);
    } else {
      forall run | Exec(sizes, EMPTY, run).Some?
        ensures Count(Exec(sizes, EMPTY, run).value, s) != k
      {
        RunKeepsFit(sizes, run, s);
      }
    }
  }

  /** The unstarted transactions of a subject never exceed its queue size exactly if that size is at least one: for
      size 0 the keep count of the prune wraps around, and any number up to 2^32 is reached. */
  lemma BoundedIffSizePositive(sizes: Sizes, s: Subject)
    ensures (forall k: nat :: Reachable(sizes, s, k) ==> k <= sizes(s)) <==> sizes(s) >= 1
  {
    forall k: nat
      ensures Reachable(sizes, s, k) <==> k <= Limit(sizes(s))
    {
      ReachableIff(sizes, s, k);
    }
    assert Reachable(sizes, s, Limit(sizes(s)));
  }
}
