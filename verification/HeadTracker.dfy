/** The head tracker (chains/heads/tracker.go) over a saver of heads (chains/heads/saver.go): backfill walks parent
    hashes through the saver and the RPC, handleNewHead saves and delivers new heads, and each may find that the
    other has saved heads in the meantime. */
module HeadTracking {
  import opened Wrappers

  type Hash = nat

  datatype Head = Head(hash: Hash, parent: Hash, number: int)

  /** The block each hash names, whoever is asked. */
  type Blocks = Hash -> Head

  ghost predicate Names(blocks: Blocks) { forall h: Hash :: blocks(h).hash == h }

  /** Numbers fall along parent hashes. */
  ghost predicate Descending(blocks: Blocks) { forall h: Hash :: Descends(blocks, h) }

  predicate Descends(blocks: Blocks, h: Hash) { blocks(blocks(h).parent).number < blocks(h).number }

  function Ancestor(blocks: Blocks, head: Head, k: nat): Head {
    if k == 0 then head else blocks(Ancestor(blocks, head, k - 1).parent)
  }

  function Gap(head: Head, finalized: Head): nat {
    if head.number > finalized.number then head.number - finalized.number else 0
  }

  /** One answer of HeadByHash and of the Save after it. */
  datatype Fetch = Fetched | FetchError | NilHead | SaveError

  /** One turn of the loop of backfill: what handleNewHead saved before the lookup, how a fetch would go, and
      whether the context is done after it. */
  datatype Turn = Turn(meanwhile: seq<Head>, fetch: Fetch, cancelled: bool)

  /** Nothing goes wrong in the turn, or in as many as it takes. */
  predicate IsSmooth(turn: Turn) { turn.fetch == Fetched && !turn.cancelled }

  /** Nobody else saves heads meanwhile. */
  ghost predicate IsAlone(turns: seq<Turn>) {
    forall i :: 0 <= i < |turns| ==> turns[i].meanwhile == []
  }

  lemma OneMoreAtMost(hashes: set<Hash>, before: set<Hash>, h: Hash)
    requires hashes <= before + {h}
    ensures |hashes| <= |before| + 1
  {
    Fewer(hashes, before + {h});
  }

  lemma {:induction false} Fewer(some: set<Hash>, all: set<Hash>)
    requires some <= all
    ensures |some| <= |all|
  {
    if h :| h in some { Fewer(some - {h}, all - {h}); }
  }

  predicate AreSmooth(turns: seq<Turn>, n: nat) {
    n <= |turns| && forall i :: 0 <= i < n ==> IsSmooth(turns[i])
  }

  datatype BackfillResult =
    | Marked | MarkFailed                     // both return nil
    | FetchFailed | Cancelled
    | FinalizedMissing(finalized: Hash, canonical: Hash)
    | NoFinalized | HeadBehindFinalized | GapTooLarge | FinalityViolated

  datatype Delivery = Delivery(head: Head, prev: Option<Head>)

  /** How the Save in handleNewHead goes, and the lookup after it. */
  datatype SaveOutcome = Saved | ChainMissing | SaveFailed | CtxDone(saved: bool)

  /** The head is in the saver afterwards. */
  predicate IsKept(outcome: SaveOutcome) {
    outcome != SaveFailed && outcome != CtxDone(false)
  }

  /** What the caller learns: a failed save, or a chain that is missing for a head that was to be delivered. */
  function ResultOf(outcome: SaveOutcome, highest: bool): HandleResult {
    match outcome
    case SaveFailed => NotSaved
    case ChainMissing => if highest then Missing else Handled
    case _ => Handled
  }

  datatype HandleResult = Handled | VeryOldBlock | Violation | NotSaved | Missing

  predicate Increasing(ds: seq<Delivery>) {
    forall i, j :: 0 <= i < j < |ds| ==> ds[i].head.number < ds[j].head.number
  }

  class Tracker {
    // the saver
    var heads: map<Hash, Head>
    var latest: Option<Head>
    var marked: set<Hash>         // marked finalized, each with all its direct ancestors
    // the two mailboxes, which get the same heads
    var delivered: seq<Delivery>

    const maxAllowedFinalityDepth: nat
    ghost const blocks: Blocks

    /** The saver holds the blocks the hashes name and knows the highest; what was delivered had been saved, in the
        order of strictly increasing numbers. */
    ghost predicate Valid()
      reads this
    {
      && Names(blocks)
      && (forall h :: h in heads ==> heads[h] == blocks(h))
      && (forall h :: h in heads ==> latest.Some? && heads[h].number <= latest.value.number)
      && (latest.Some? ==> latest.value.hash in heads && heads[latest.value.hash] == latest.value)
      && (forall i :: 0 <= i < |delivered| ==>
            delivered[i].head.hash in heads && heads[delivered[i].head.hash] == delivered[i].head)
      && Increasing(delivered)
    }

    constructor (maxDepth: nat, ghost blocks: Blocks)
      requires Names(blocks)
      ensures Valid() && heads == map[] && latest == None && marked == {} && delivered == []
      ensures maxAllowedFinalityDepth == maxDepth && this.blocks == blocks
    {
      heads, latest, marked, delivered := map[], None, {}, [];
      maxAllowedFinalityDepth := maxDepth;
      this.blocks := blocks;
    }

    /** Saver.Save: the latest head moves only to a higher one. */
    method Save(head: Head)
      requires Valid() && head == blocks(head.hash)
      modifies this`heads, this`latest
      ensures Valid() && heads == old(heads)[head.hash := head]
      ensures latest == if old(latest).Some? && head.number <= old(latest).value.number then old(latest) else Some(head)
    {
      heads := heads[head.hash := head];
      if latest == None || head.number > latest.value.number { latest := Some(head); }
    }

    /** Saves by the other goroutine. */
    method SaveAll(others: seq<Head>)
      requires Valid() && AreBlocks(others)
      modifies this`heads, this`latest
      ensures Valid() && old(heads.Keys) <= heads.Keys
      ensures forall h :: h in heads ==> h in old(heads) || heads[h] in others
      ensures forall i :: 0 <= i < |others| ==> others[i].hash in heads
    {
      var i := 0;
      while i < |others|
        invariant 0 <= i <= |others| && Valid() && old(heads.Keys) <= heads.Keys
        invariant forall k :: 0 <= k < i ==> others[k].hash in heads
        invariant forall h :: h in heads ==> h in old(heads) || heads[h] in others
      {
        Save(others[i]);
        i := i + 1;
      }
    }

    method FetchAndSaveHead(hash: Hash, fetch: Fetch, fetched: Head) returns (head: Option<Head>)
      requires Valid() && fetched == blocks(hash)
      modifies this`heads, this`latest
      ensures Valid() && old(heads.Keys) <= heads.Keys <= old(heads.Keys) + {hash}
      ensures head == if fetch == Fetched then Some(fetched) else None
      ensures head.Some? ==> hash in heads
    {
      if fetch == Fetched {
        Save(fetched);
        return Some(fetched);
      }
      return None;
    }

    ghost predicate Turns(turns: seq<Turn>) {
      forall t :: 0 <= t < |turns| ==> AreBlocks(turns[t].meanwhile)
    }

    ghost predicate AreBlocks(others: seq<Head>) {
      forall i :: 0 <= i < |others| ==> others[i] == blocks(others[i].hash)
    }

    /** The ancestors of head up to the k-th are all in the saver. */
    ghost predicate HasAncestors(head: Head, k: nat)
      reads this
    {
      forall i :: 1 <= i <= k ==> Ancestor(blocks, head, i).hash in heads
    }

    /** One turn of the loop of backfill: the parent, from the saver or the RPC. */
    method StepBack(current: Head, turn: Turn, parent: Head)
        returns (next: Option<Head>, asked: bool, failure: BackfillResult)
      requires Valid() && parent == blocks(current.parent)
      requires AreBlocks(turn.meanwhile)
      modifies this`heads, this`latest
      ensures Valid() && old(heads.Keys) <= heads.Keys
      ensures next.Some? ==> next.value == parent && current.parent in heads
      ensures next == None ==> asked && (failure == FetchFailed || failure == Cancelled) && !IsSmooth(turn)
      ensures current.parent in old(heads) ==> next.Some? && !asked
      ensures forall i :: 0 <= i < |turn.meanwhile| ==> turn.meanwhile[i].hash in heads
      ensures turn.meanwhile == [] ==>
                (asked <==> current.parent !in old(heads)) && |heads.Keys| <= |old(heads.Keys)| + if asked then 1 else 0
    {
      SaveAll(turn.meanwhile);
      assert turn.meanwhile == [] ==> heads.Keys == old(heads.Keys);
      asked, failure := false, FetchFailed;
      if current.parent in heads { return Some(heads[current.parent]), asked, failure; }
      next := FetchAndSaveHead(current.parent, turn.fetch, parent);
      asked := true;
      if turn.meanwhile == [] { OneMoreAtMost(heads.Keys, old(heads.Keys), current.parent); }
      if turn.cancelled { return None, asked, Cancelled; }
    }

    lemma HasOneMore(head: Head, k: nat)
      requires Names(blocks) && HasAncestors(head, k) && Ancestor(blocks, head, k).parent in heads
      ensures HasAncestors(head, k + 1)
    {
      assert Ancestor(blocks, head, k + 1) == blocks(Ancestor(blocks, head, k).parent);
    }

    /** Turn k of the walk, seen from the head it began at. */
    method WalkOne(ghost head: Head, current: Head, k: nat, turns: seq<Turn>, parent: Head)
        returns (next: Option<Head>, asked: bool, failure: BackfillResult)
      requires Valid() && parent == blocks(current.parent) && Turns(turns)
      requires current == Ancestor(blocks, head, k) && HasAncestors(head, k)
      modifies this`heads, this`latest
      ensures Valid() && old(heads.Keys) <= heads.Keys
      ensures next.Some? ==> next.value == Ancestor(blocks, head, k + 1) && HasAncestors(head, k + 1)
      ensures next == None ==> (failure == FetchFailed || failure == Cancelled) && !AreSmooth(turns, k + 1)
      ensures IsAlone(turns) ==> |heads.Keys| <= |old(heads.Keys)| + if asked then 1 else 0
    {
      if k >= |turns| { return None, false, Cancelled; }
      next, asked, failure := StepBack(current, turns[k], parent);
      if next.Some? { HasOneMore(head, k); }
    }

    /** The loop of backfill, down to the finalized height. */
    method WalkBack(head: Head, finalized: Head, turns: seq<Turn>, rpc: Blocks)
        returns (reached: Option<Head>, failure: BackfillResult, fetched: nat)
      requires Valid() && Turns(turns) && forall h: Hash :: rpc(h) == blocks(h)
      modifies this`heads, this`latest
      ensures Valid() && old(heads.Keys) <= heads.Keys
      ensures fetched <= Gap(head, finalized)
      ensures IsAlone(turns) ==> |heads.Keys| <= |old(heads.Keys)| + fetched
      ensures reached.Some? ==> reached.value == Ancestor(blocks, head, Gap(head, finalized))
      ensures reached.Some? ==> HasAncestors(head, Gap(head, finalized))
      ensures reached == None ==> failure == FetchFailed || failure == Cancelled
      ensures reached == None ==> !AreSmooth(turns, Gap(head, finalized))
      ensures Gap(head, finalized) == 0 ==> heads == old(heads) && latest == old(latest)
    {
      var current, n := head, 0;
      fetched, failure := 0, Cancelled;
      var i := head.number - 1;
      while i >= finalized.number
        invariant i == head.number - 1 - n && 0 <= n <= Gap(head, finalized)
        invariant Valid() && old(heads.Keys) <= heads.Keys
        invariant current == Ancestor(blocks, head, n) && HasAncestors(head, n)
        invariant fetched <= n && (n == 0 ==> heads == old(heads) && latest == old(latest))
        invariant IsAlone(turns) ==> |heads.Keys| <= |old(heads.Keys)| + fetched
      {
        var next, asked, problem := WalkOne(head, current, n, turns, rpc(current.parent));
        if asked { fetched := fetched + 1; }
        if next == None { return None, problem, fetched; }
        current := next.value;
        n := n + 1;
        i := i - 1;
      }
      reached := Some(current);
    }

    /** backfill: nil means that the ancestor of head at the finalized height has the finalized hash and that all
        ancestors down to it are saved, cached before or not; only then is the block marked. */
    method BackfillTo(head: Head, finalized: Head, turns: seq<Turn>, rpc: Blocks, markFails: bool)
        returns (result: BackfillResult, fetched: nat)
      requires Valid() && Turns(turns) && forall h: Hash :: rpc(h) == blocks(h)
      modifies this`heads, this`latest, this`marked
      ensures Valid() && old(heads.Keys) <= heads.Keys
      ensures fetched <= Gap(head, finalized)
      ensures marked == if result == Marked then old(marked) + {finalized.hash} else old(marked)
      ensures result == Marked || result == MarkFailed ==>
                && Ancestor(blocks, head, Gap(head, finalized)).hash == finalized.hash
                && HasAncestors(head, Gap(head, finalized))
      ensures result.FinalizedMissing? ==>
                && result == FinalizedMissing(finalized.hash, Ancestor(blocks, head, Gap(head, finalized)).hash)
                && result.canonical != finalized.hash
      ensures result in {Marked, MarkFailed, FetchFailed, Cancelled} || result.FinalizedMissing?
      ensures result in {FetchFailed, Cancelled} ==> !AreSmooth(turns, Gap(head, finalized))
      ensures result == MarkFailed ==> markFails
      ensures Gap(head, finalized) == 0 ==> heads == old(heads) && latest == old(latest)
    {
      var reached;
      reached, result, fetched := WalkBack(head, finalized, turns, rpc);
      if reached == None { return; }
      if reached.value.hash != finalized.hash { return FinalizedMissing(finalized.hash, reached.value.hash), fetched; }
      if markFails { return MarkFailed, fetched; }
      marked := marked + {finalized.hash};
      return Marked, fetched;
    }

    /** The finalized block is where it should be, within reach, and nothing goes wrong on the way. */
    ghost predicate IsFine(head: Head, finalized: Option<Head>, violated: bool, turns: seq<Turn>)
      reads this
    {
      && finalized.Some? && !violated && 0 <= head.number - finalized.value.number <= maxAllowedFinalityDepth
      && AreSmooth(turns, head.number - finalized.value.number)
      && Ancestor(blocks, head, head.number - finalized.value.number).hash == finalized.value.hash
    }

    /** Why nothing is backfilled, if so. */
    ghost predicate IsGuarded(head: Head, finalized: Option<Head>, violated: bool, result: BackfillResult)
      reads this
    {
      match result
      case NoFinalized => finalized == None
      case HeadBehindFinalized => finalized.Some? && head.number < finalized.value.number
      case GapTooLarge => finalized.Some? && head.number - finalized.value.number > maxAllowedFinalityDepth
      case FinalityViolated =>
        finalized.Some? && violated && 0 <= head.number - finalized.value.number <= maxAllowedFinalityDepth
      case _ => false
    }

    /** Backfill: the guards around it bound the number of fetches; it marks the block if nothing goes wrong. */
    method Backfill(head: Head, finalized: Option<Head>, violated: bool, turns: seq<Turn>, rpc: Blocks, markFails: bool)
      returns (result: BackfillResult, fetched: nat)
      requires Valid() && Turns(turns) && forall h: Hash :: rpc(h) == blocks(h)
      modifies this`heads, this`latest, this`marked
      ensures Valid() && old(heads.Keys) <= heads.Keys
      ensures fetched <= maxAllowedFinalityDepth
      ensures if result == Marked then finalized.Some? && marked == old(marked) + {finalized.value.hash}
                else marked == old(marked)
      ensures result == Marked || result == MarkFailed ==>
                && finalized.Some? && 0 <= head.number - finalized.value.number <= maxAllowedFinalityDepth
                && Ancestor(blocks, head, head.number - finalized.value.number).hash == finalized.value.hash
                && HasAncestors(head, head.number - finalized.value.number)
      ensures IsFine(head, finalized, violated, turns) && !markFails ==> result == Marked
      ensures violated || finalized == None || head.number < finalized.value.number
                || head.number - finalized.value.number > maxAllowedFinalityDepth ==>
                IsGuarded(head, finalized, violated, result) && heads == old(heads) && fetched == 0
      ensures result in {NoFinalized, HeadBehindFinalized, GapTooLarge, FinalityViolated} ==>
                IsGuarded(head, finalized, violated, result)
      ensures finalized == Some(head) ==> heads == old(heads) && latest == old(latest)
      ensures result == Marked && latest == Some(head) ==>
                forall x: Head :: x.number < Ancestor(blocks, head, head.number - finalized.value.number).number ==>
                    IsBelowMarked(x)
    {
      fetched := 0;
      if finalized == None { return NoFinalized, fetched; }
      if head.number < finalized.value.number { return HeadBehindFinalized, fetched; }
      if head.number - finalized.value.number > maxAllowedFinalityDepth { return GapTooLarge, fetched; }
      if violated { return FinalityViolated, fetched; }
      result, fetched := BackfillTo(head, finalized.value, turns, rpc, markFails);
      forall x: Head | result == Marked && latest == Some(head)
          && x.number < Ancestor(blocks, head, head.number - finalized.value.number).number
        ensures IsBelowMarked(x)
      {
        assert IsMarkedAbove(head, head.number - finalized.value.number, x);
      }
    }

    /** A block marked finalized, or an ancestor of one. */
    ghost predicate IsFinal(head: Head)
      reads this
    {
      exists m, k: nat :: m in marked && Ancestor(blocks, blocks(m), k).hash == head.hash
    }

    ghost predicate NearestFinal(prev: Head, k: nat)
      reads this
    {
      && HasAncestors(prev, k) && IsFinal(Ancestor(blocks, prev, k))
      && forall j: nat :: j < k ==> !IsFinal(Ancestor(blocks, prev, j))
    }

    /** prev.LatestFinalizedHead(): the nearest finalized ancestor of prev, or prev itself, found through saved
        heads. */
    ghost predicate IsLatestFinalized(prev: Head, finalized: Option<Head>)
      reads this
    {
      if finalized == None then forall k: nat :: HasAncestors(prev, k) ==> !IsFinal(Ancestor(blocks, prev, k))
      else exists k: nat :: NearestFinal(prev, k) && finalized.value == Ancestor(blocks, prev, k)
    }

    ghost predicate IsMarkedAbove(prev: Head, k: nat, head: Head)
      reads this
    {
      && HasAncestors(prev, k) && Ancestor(blocks, prev, k).hash in marked
      && head.number < Ancestor(blocks, prev, k).number
    }

    /** A block marked finalized below the latest head, through saved heads, with a number above this one. */
    ghost predicate IsBelowMarked(head: Head)
      reads this
    {
      latest.Some? && exists k: nat :: IsMarkedAbove(latest.value, k, head)
    }

    /** The nearest finalized ancestor is the highest, so comparing with it is enough. */
    lemma BelowMarkedIsBelowNearest(head: Head, prevFinalized: Option<Head>)
      requires Valid() && Descending(blocks) && latest.Some? && IsLatestFinalized(latest.value, prevFinalized)
      requires IsBelowMarked(head)
      ensures prevFinalized.Some? && head.number < prevFinalized.value.number
    {
      var prev := latest.value;
      var k: nat :| IsMarkedAbove(prev, k, head);
      var a := Ancestor(blocks, prev, k);
      AncestorIsABlock(blocks, prev, k);
      assert Ancestor(blocks, blocks(a.hash), 0) == a;
      assert IsFinal(a);
      var near: nat :| NearestFinal(prev, near) && prevFinalized.value == Ancestor(blocks, prev, near);
      NumbersFall(blocks, prev, near, k);
    }

    /** A finalized block below the latest head, through saved heads, with a number above this one. */
    ghost predicate IsBelowFinal(head: Head)
      reads this
    {
      latest.Some? && exists k: nat :: IsFinalAbove(latest.value, k, head)
    }

    ghost predicate IsFinalAbove(prev: Head, k: nat, head: Head)
      reads this
    {
      && HasAncestors(prev, k) && IsFinal(Ancestor(blocks, prev, k))
      && head.number < Ancestor(blocks, prev, k).number
    }

    lemma BelowFinalIsBelowNearest(head: Head, prevFinalized: Option<Head>)
      requires Valid() && Descending(blocks) && latest.Some? && IsLatestFinalized(latest.value, prevFinalized)
      ensures IsBelowFinal(head) <==> prevFinalized.Some? && head.number < prevFinalized.value.number
    {
      var prev := latest.value;
      if IsBelowFinal(head) {
        var k: nat :| IsFinalAbove(prev, k, head);
        var near: nat :| NearestFinal(prev, near) && prevFinalized.value == Ancestor(blocks, prev, near);
        NumbersFall(blocks, prev, near, k);
      }
      if prevFinalized.Some? && head.number < prevFinalized.value.number {
        var near: nat :| NearestFinal(prev, near) && prevFinalized.value == Ancestor(blocks, prev, near);
        assert IsFinalAbove(prev, near, head);
      }
    }

    /** The finalized height is only known through the latest head: one whose parent is not saved, above all marked
        blocks, has no finalized ancestor that can be found, and nothing counts as too old any more. */
    lemma CutChainForgets(head: Head)
      requires Valid() && Descending(blocks) && head == blocks(head.hash) && head.parent !in heads
      requires forall m :: m in marked ==> blocks(m).number < head.number
      ensures IsLatestFinalized(head, None)
      ensures latest == Some(head) ==> forall x: Head :: !IsBelowFinal(x)
    {
      if IsFinal(head) {
        var m, k: nat :| m in marked && Ancestor(blocks, blocks(m), k).hash == head.hash;
        AncestorIsABlock(blocks, blocks(m), k);
        NumbersFall(blocks, blocks(m), 0, k);
      }
      forall k: nat | k >= 1
        ensures !HasAncestors(head, k)
      {
        assert Ancestor(blocks, head, 1) == blocks(head.parent);
      }
    }

    /** handleNewHead.  A head is delivered exactly if it is saved and higher than every head seen before; with
        block numbers that fall along parent hashes, it is refused as too old exactly if it is below a finalized
        ancestor of the latest head that saved heads lead to. */
    method HandleNewHead(head: Head, prevFinalized: Option<Head>, violated: bool, meanwhile: seq<Head>,
                         outcome: SaveOutcome)
      returns (result: HandleResult)
      requires Valid() && head == blocks(head.hash)
      requires if latest.Some? then IsLatestFinalized(latest.value, prevFinalized) else prevFinalized == None
      requires AreBlocks(meanwhile)
      modifies this`heads, this`latest, this`delivered
      ensures Valid() && old(heads.Keys) <= heads.Keys
      ensures forall h :: h in heads ==> h in old(heads) || heads[h] in meanwhile || heads[h] == head
      ensures delivered == if result == Handled && outcome == Saved && old(IsHighest(head))
                then old(delivered) + [Delivery(head, old(latest))] else old(delivered)
      ensures result == Handled && outcome == Saved ==> head.hash in heads
      ensures Descending(blocks) ==> (result == VeryOldBlock <==> old(IsBelowFinal(head)))
      ensures Descending(blocks) && old(IsBelowMarked(head)) ==> result == VeryOldBlock
      ensures result == VeryOldBlock || result == Violation ==> heads == old(heads) && latest == old(latest)
      ensures result == Violation ==> violated
      ensures violated ==> result == Violation || result == VeryOldBlock
      ensures Descending(blocks) && violated && !old(IsBelowFinal(head)) ==> result == Violation
      ensures result != Violation && result != VeryOldBlock ==>
                && result == ResultOf(outcome, old(IsHighest(head)))
                && (IsKept(outcome) ==> head.hash in heads)
                && (!IsKept(outcome) ==> forall h :: h in heads ==> h in old(heads) || heads[h] in meanwhile)
    {
      if Descending(blocks) && latest.Some? { BelowFinalIsBelowNearest(head, prevFinalized); }
      if Descending(blocks) && IsBelowMarked(head) { BelowMarkedIsBelowNearest(head, prevFinalized); }
      if prevFinalized.Some? && head.number < prevFinalized.value.number { return VeryOldBlock; }
      if violated { return Violation; }
      result := SaveAndDeliver(head, meanwhile, outcome);
    }

    ghost predicate IsHighest(head: Head)
      reads this
    {
      forall h :: h in heads ==> heads[h].number < head.number
    }

    method SaveAndDeliver(head: Head, meanwhile: seq<Head>, outcome: SaveOutcome) returns (result: HandleResult)
      requires Valid() && head == blocks(head.hash)
      requires AreBlocks(meanwhile)
      modifies this`heads, this`latest, this`delivered
      ensures Valid() && old(heads.Keys) <= heads.Keys
      ensures forall h :: h in heads ==> h in old(heads) || heads[h] in meanwhile || heads[h] == head
      ensures delivered == if result == Handled && outcome == Saved && old(IsHighest(head))
                then old(delivered) + [Delivery(head, old(latest))] else old(delivered)
      ensures result == Handled && outcome == Saved ==> head.hash in heads
      ensures result == ResultOf(outcome, old(IsHighest(head)))
      ensures IsKept(outcome) ==> head.hash in heads
      ensures !IsKept(outcome) ==> forall h :: h in heads ==> h in old(heads) || heads[h] in meanwhile
    {
      var prev := latest;
      SaveAll(meanwhile);
      if outcome == SaveFailed { return NotSaved; }
      if outcome == CtxDone(false) { return Handled; }
      Save(head);
      if outcome == CtxDone(true) { return Handled; }
      if prev == None || head.number > prev.value.number {
        if outcome == ChainMissing { return Missing; }
        delivered := delivered + [Delivery(head, prev)];
      }
      return Handled;
    }
  }

  /** Numbers never rise from an ancestor to an earlier one. */
  lemma {:induction false} NumbersFall(blocks: Blocks, head: Head, j: nat, k: nat)
    requires Names(blocks) && Descending(blocks) && head == blocks(head.hash) && j <= k
    ensures Ancestor(blocks, head, k).number <= Ancestor(blocks, head, j).number
    decreases k
  {
    if j < k {
      NumbersFall(blocks, head, j, k - 1);
      AncestorIsABlock(blocks, head, k - 1);
      assert Descends(blocks, Ancestor(blocks, head, k - 1).hash);
    }
  }

  lemma AncestorIsABlock(blocks: Blocks, head: Head, k: nat)
    requires Names(blocks) && head == blocks(head.hash)
    ensures Ancestor(blocks, head, k) == blocks(Ancestor(blocks, head, k).hash)
  {
  }

  /** A chain without forks: block h is at height -h. */
  function Chain(h: Hash): Head {
    Head(h, h + 1, 0 - h)
  }

  lemma ChainDescends()
    ensures Names(Chain) && Descending(Chain)
  {
    assert forall h: Hash :: Descends(Chain, h);
  }

  /** Block 5 arrives and is finalized. */
  method FinalizeFive() returns (t: Tracker)
    ensures fresh(t) && t.Valid() && t.blocks == Chain && t.marked == {5} && t.heads.Keys == {5}
    ensures t.latest == Some(Chain(5)) && t.IsLatestFinalized(Chain(5), Some(Chain(5)))
  {
    ChainDescends();
    t := new Tracker(10, Chain);
    var handled := t.HandleNewHead(Chain(5), None, false, [], Saved);
    assert t.heads.Keys == {5};
    var marked, fetched := t.Backfill(Chain(5), Some(Chain(5)), false, [], Chain, false);
    assert Ancestor(Chain, Chain(5), 0) == Chain(5);
    assert t.IsFinal(Chain(5)) && t.NearestFinal(Chain(5), 0);
  }

  /** Block 0 arrives before the blocks in between. */
  method CutOff() returns (t: Tracker)
    ensures fresh(t) && t.Valid() && t.blocks == Chain && t.marked == {5} && t.latest == Some(Chain(0)) && 1 !in t.heads
  {
    t := FinalizeFive();
    ChainDescends();
    var handled := t.HandleNewHead(Chain(0), Some(Chain(5)), false, [], Saved);
  }

  /** A finalized height that was known is lost: block 9 is saved although it is below block 5, which is finalized. */
  method OldHeadIsSaved() returns (t: Tracker)
    ensures fresh(t) && t.Valid() && t.blocks == Chain && Descending(t.blocks)
    ensures 5 in t.marked && 9 in t.heads && t.heads[9].number < Chain(5).number
  {
    t := CutOff();
    ChainDescends();
    t.CutChainForgets(Chain(0));
    var handled := t.HandleNewHead(Chain(9), None, false, [], Saved);
  }
}
