/** Selection of the active node (multinode/multi_node.go) as code that acts on the pool of RPC clients: every look
    at a node's state is a check of the machine in RpcPool, so whatever a selection does is a run of that machine.
    What other goroutines do between two of its steps, the nodes' own states and the selector's choice come from a
    script; a script that is used up leaves the call waiting. */
module NodeSelection {
  import opened Wrappers
  import opened RpcPool

  /** A step of selection sel itself. */
  predicate IsOf(s: Step, sel: nat) {
    (s.SkipCheck? || s.StartCheck? || s.ReadHighest? || s.ReadLatest? || s.ReturnNode?) && s.s == sel
  }

  /** Later in a run: the same clients, and everything returned so far. */
  ghost predicate Continues(p: Pool, p': Pool) {
    && |p'.clients| == |p.clients| && |p'.selections| >= |p.selections| && |p'.answers| >= |p.answers|
    && forall i :: 0 <= i < |p.answers| ==> p'.answers[i] == p.answers[i]
  }

  lemma StepContinues(cfg: Config, p: Pool, s: Step)
    requires Enabled(p, s)
    ensures Continues(p, Apply(cfg, p, s))
  {
    AnswersOnlyGrow(cfg, p, s);
  }

  lemma OthersLeaveAlone(cfg: Config, p: Pool, s: Step, sel: nat)
    requires Enabled(p, s) && sel < |p.selections| && !IsOf(s, sel)
    ensures sel < |Apply(cfg, p, s).selections| && Apply(cfg, p, s).selections[sel] == p.selections[sel]
  {
  }

  /** The pool as all goroutines share it; `run` records every step since it was made. */
  class SharedPool {
    var pool: Pool
    const cfg: Config
    ghost const origin: Pool
    ghost var run: seq<Step>

    constructor (cfg: Config, n: nat)
      ensures Valid() && this.cfg == cfg && |pool.clients| == n && Fresh(pool)
    {
      this.cfg := cfg;
      var unused := Pool(seq(n, _ => FRESH_CLIENT), [], {}, [], []);
      pool, origin, run := unused, unused, [];
    }

    ghost predicate Valid()
      reads this
    {
      Fresh(origin) && Exec(cfg, origin, run) == Some(pool)
    }

    lemma Fits()
      requires Valid()
      ensures Inv(cfg, pool)
    {
      RunKeepsInv(cfg, origin, run);
    }

    method Do(s: Step)
      requires Valid() && Enabled(pool, s)
      modifies this
      ensures Valid() && pool == Apply(cfg, old(pool), s)
    {
      ghost var more := run + [s];
      assert more[..|run|] == run && more[|run|] == s;
      pool, run := Apply(cfg, pool, s), more;
    }

    /** The other goroutines take those of the given steps that are theirs and possible. */
    method Yield(sel: nat, steps: seq<Step>)
      requires Valid() && sel < |pool.selections|
      modifies this
      ensures Valid() && Continues(old(pool), pool) && pool.selections[sel] == old(pool).selections[sel]
    {
      for i := 0 to |steps|
        invariant Valid() && Continues(old(pool), pool) && pool.selections[sel] == old(pool).selections[sel]
      {
        if !IsOf(steps[i], sel) && Enabled(pool, steps[i]) {
          StepContinues(cfg, pool, steps[i]);
          OthersLeaveAlone(cfg, pool, steps[i], sel);
          Do(steps[i]);
        }
      }
    }
  }

  datatype Turn = Turn(
    others: seq<Step>,          // taken by others meanwhile
    alive: bool,                // whether the node's own state is Alive
    chosen: Option<nat>,        // what the selector chooses among the nodes it found alive
    initializing: bool,         // whether a node is still initializing
    ctxDone: bool,
    found: Option<nat>)         // the active node when the lock is taken

  const NO_TURN := Turn([], false, None, false, false, None)

  datatype Look = Alive | NotAlive | Hanging

  datatype Selected = Chosen(node: nat) | ErrNodeError | ErrCtx | StillWaiting

  /** What is left of a script. */
  predicate Remains(before: seq<Turn>, after: seq<Turn>) {
    |after| <= |before| && after == before[|before| - |after|..]
  }

  /** One look at a node, and whether it found the node alive. */
  datatype LookAt = LookAt(node: nat, alive: bool)

  /** There is no such node, or a look since the first `n` found it not alive. */
  ghost predicate FoundDead(looks: seq<LookAt>, n: nat, node: Option<nat>, nodes: nat) {
    node.Some? && node.value < nodes ==> exists k :: n <= k < |looks| && looks[k] == LookAt(node.value, false)
  }

  class MultiNode {
    const shared: SharedPool
    var activeNode: Option<nat>
    var script: seq<Turn>
    ghost var looks: seq<LookAt>    // all looks so far, in order

    constructor (shared: SharedPool, script: seq<Turn>)
      ensures this.shared == shared && this.script == script && activeNode == None && looks == []
    {
      this.shared, this.script, activeNode, looks := shared, script, None, [];
    }

    method Wait(sel: nat) returns (t: Turn)
      requires shared.Valid() && sel < |shared.pool.selections| && script != []
      modifies shared, this`script
      ensures shared.Valid() && script == old(script)[1..] && t == old(script)[0]
      ensures Continues(old(shared.pool), shared.pool)
      ensures shared.pool.selections[sel] == old(shared.pool).selections[sel]
    {
      t := script[0];
      script := script[1..];
      shared.Yield(sel, t.others);
    }

    /** The selection is between two looks and has not changed its mind about any node but this one. */
    ghost predicate Looked(before: Pool, sel: nat, node: nat)
      reads shared
    {
      && IsLooking(shared.pool, sel) && sel < |before.selections|
      && shared.pool.selections[sel].began == before.selections[sel].began
      && forall other :: other != node ==>
           (other in shared.pool.selections[sel].passed <==> other in before.selections[sel].passed)
    }

    /** The reads of the pool's highest, one client after the other. */
    method ReadAll(sel: nat, node: nat) returns (done: bool)
      requires shared.Valid() && sel < |shared.pool.selections| && node < |shared.pool.clients|
      requires shared.pool.selections[sel].check == Some(Check(node, [], 0))
      requires shared.pool.selections[sel].returned == None
      modifies shared, this`script
      ensures shared.Valid() && Continues(old(shared.pool), shared.pool) && Remains(old(script), script)
      ensures !done ==> script == []
      ensures var sel' := shared.pool.selections[sel];
              && sel'.began == old(shared.pool).selections[sel].began
              && sel'.passed == old(shared.pool).selections[sel].passed
              && sel'.returned == None && sel'.check.Some? && sel'.check.value.node == node
              && (done ==> |sel'.check.value.readAt| == |shared.pool.clients|)
    {
      while |shared.pool.selections[sel].check.value.readAt| < |shared.pool.clients|
        invariant shared.Valid() && Continues(old(shared.pool), shared.pool) && Remains(old(script), script)
        invariant var sel' := shared.pool.selections[sel];
                  && sel'.began == old(shared.pool).selections[sel].began
                  && sel'.passed == old(shared.pool).selections[sel].passed
                  && sel'.returned == None && sel'.check.Some? && sel'.check.value.node == node
                  && |sel'.check.value.readAt| <= |shared.pool.clients|
        decreases |script|
      {
        if script == [] { return false; }
        var t := Wait(sel);
        if Enabled(shared.pool, ReadHighest(sel)) {
          StepContinues(shared.cfg, shared.pool, ReadHighest(sel));
          shared.Do(ReadHighest(sel));
        }
      }
      done := true;
    }

    /** The repeatable-read check of a node whose own state is Alive. */
    method CheckNode(sel: nat, node: nat) returns (look: Look)
      requires shared.Valid() && IsLooking(shared.pool, sel) && node < |shared.pool.clients|
      modifies shared, this`script
      ensures shared.Valid() && Continues(old(shared.pool), shared.pool) && Remains(old(script), script)
      ensures look == Hanging ==> script == []
      ensures look != Hanging ==> Looked(old(shared.pool), sel, node)
      ensures look == Alive ==> node in shared.pool.selections[sel].passed
      ensures look == NotAlive ==>
                node !in shared.pool.selections[sel].passed && IsLagging(shared.cfg, shared.pool, node)
    {
      StepContinues(shared.cfg, shared.pool, StartCheck(sel, node));
      shared.Do(StartCheck(sel, node));
      var done := ReadAll(sel, node);
      if !done { return Hanging; }
      look := Conclude(sel, node);
    }

    method SkipNode(sel: nat, node: nat)
      requires shared.Valid() && IsLooking(shared.pool, sel)
      modifies shared
      ensures shared.Valid() && Continues(old(shared.pool), shared.pool) && Looked(old(shared.pool), sel, node)
      ensures node !in shared.pool.selections[sel].passed
    {
      StepContinues(shared.cfg, shared.pool, SkipCheck(sel, node));
      shared.Do(SkipCheck(sel, node));
    }

    /** node.State() == Alive, with the repeatable-read check in it.  A node whose own state is Alive is found not
        alive only if it lags. */
    method IsAlive(sel: nat, node: nat) returns (look: Look)
      requires shared.Valid() && IsLooking(shared.pool, sel) && node < |shared.pool.clients|
      modifies shared, this`script, this`looks
      ensures shared.Valid() && Continues(old(shared.pool), shared.pool) && Remains(old(script), script)
      ensures look == Hanging ==> script == []
      ensures look != Hanging ==> |script| < |old(script)| && Looked(old(shared.pool), sel, node)
      ensures looks == if look == Hanging then old(looks) else old(looks) + [LookAt(node, look == Alive)]
      ensures look == Alive ==> node in shared.pool.selections[sel].passed && old(script)[0].alive
      ensures look == NotAlive ==> node !in shared.pool.selections[sel].passed
      ensures look == NotAlive && old(script)[0].alive ==> IsLagging(shared.cfg, shared.pool, node)
    {
      if script == [] { return Hanging; }
      var t := Wait(sel);
      if t.alive {
        look := CheckNode(sel, node);
        if look == Hanging { return; }
      } else {
        SkipNode(sel, node);
        look := NotAlive;
      }
      looks := looks + [LookAt(node, look == Alive)];
    }

    /** The node's own latest is read as soon as its lock is free. */
    method Conclude(sel: nat, node: nat) returns (look: Look)
      requires shared.Valid() && sel < |shared.pool.selections| && node < |shared.pool.clients|
      requires var s := shared.pool.selections[sel];
               && s.returned == None && s.check.Some? && s.check.value.node == node
               && |s.check.value.readAt| == |shared.pool.clients|
      modifies shared, this`script
      ensures shared.Valid() && Continues(old(shared.pool), shared.pool) && Remains(old(script), script)
      ensures look == Hanging ==> script == []
      ensures look != Hanging ==> Looked(old(shared.pool), sel, node)
      ensures look == Alive ==> node in shared.pool.selections[sel].passed
      ensures look == NotAlive ==>
                node !in shared.pool.selections[sel].passed && IsLagging(shared.cfg, shared.pool, node)
    {
      ghost var s := shared.pool.selections[sel];
      while !Enabled(shared.pool, ReadLatest(sel))
        invariant shared.Valid() && Continues(old(shared.pool), shared.pool) && Remains(old(script), script)
        invariant shared.pool.selections[sel] == s
        decreases |script|
      {
        if script == [] { return Hanging; }
        var t := Wait(sel);
      }
      StepContinues(shared.cfg, shared.pool, ReadLatest(sel));
      shared.Fits();
      RejectedIsLagging(shared.cfg, shared.pool, sel);
      shared.Do(ReadLatest(sel));
      look := if node in shared.pool.selections[sel].passed then Alive else NotAlive;
    }

    /** The selection goes on: it is between two looks, and remembers when it began. */
    ghost predicate GoesOn(before: Pool, sel: nat)
      reads shared
    {
      && Continues(before, shared.pool) && IsLooking(shared.pool, sel) && sel < |before.selections|
      && shared.pool.selections[sel].began == before.selections[sel].began
    }

    ghost predicate IsFoundAlive(sel: nat, node: nat)
      reads shared
    {
      sel < |shared.pool.selections| && node < |shared.pool.clients| && node in shared.pool.selections[sel].passed
    }

    /** After the looks before, each node was looked at once and in order, and found alive exactly if it has passed. */
    ghost predicate LookedAtFirst(before: seq<LookAt>, sel: nat, n: nat)
      reads this`looks, shared
    {
      && |looks| == |before| + n && before <= looks && sel < |shared.pool.selections|
      && forall k :: 0 <= k < n ==> looks[|before| + k] == LookAt(k, k in shared.pool.selections[sel].passed)
    }

    /** A look at every node: which ones are alive. */
    method LookAtAll(sel: nat) returns (list: seq<nat>, hanging: bool)
      requires shared.Valid() && IsLooking(shared.pool, sel)
      modifies shared, this`script, this`looks
      ensures shared.Valid() && Continues(old(shared.pool), shared.pool) && Remains(old(script), script)
      ensures hanging ==> script == []
      ensures old(looks) <= looks
      ensures !hanging ==> GoesOn(old(shared.pool), sel) && LookedAtFirst(old(looks), sel, |shared.pool.clients|)
      ensures !hanging ==> forall x: nat :: x in list <==> IsFoundAlive(sel, x)
    {
      list, hanging := [], true;
      var k := 0;
      while k < |shared.pool.clients|
        invariant shared.Valid() && GoesOn(old(shared.pool), sel) && Remains(old(script), script)
        invariant k <= |shared.pool.clients| && LookedAtFirst(old(looks), sel, k)
        invariant forall x :: x in list <==> 0 <= x < k && x in shared.pool.selections[sel].passed
      {
        var look := IsAlive(sel, k);
        if look == Hanging { return; }
        if look == Alive { list := list + [k]; }
        k := k + 1;
      }
      hanging := false;
    }

    /** nodeSelector.Select(): a look at every node, then a choice among those found alive. */
    method Select(sel: nat) returns (best: Option<nat>, hanging: bool, t: Turn)
      requires shared.Valid() && IsLooking(shared.pool, sel)
      modifies shared, this`script, this`looks
      ensures shared.Valid() && Continues(old(shared.pool), shared.pool) && Remains(old(script), script)
      ensures hanging ==> script == []
      ensures !hanging ==> GoesOn(old(shared.pool), sel) && |script| < |old(script)|
      ensures hanging ==> best == None
      ensures old(looks) <= looks
      ensures !hanging ==> LookedAtFirst(old(looks), sel, |shared.pool.clients|)
      ensures !hanging ==> t in old(script)
      ensures !hanging ==> best == if t.chosen.Some? && IsFoundAlive(sel, t.chosen.value) then t.chosen else None
    {
      best, t := None, NO_TURN;
      var list;
      list, hanging := LookAtAll(sel);
      if hanging || script == [] { return None, true, t; }
      t := Wait(sel);
      if t.chosen.Some? && t.chosen.value in list { best := t.chosen; }
    }

    /** awaitNodeSelection: selects until a node is found, or none is and none is initializing, or the context is
        done. */
    method AwaitNodeSelection(sel: nat) returns (r: Selected, ghost last: Turn)
      requires shared.Valid() && IsLooking(shared.pool, sel)
      modifies shared, this`script, this`looks
      ensures shared.Valid() && Continues(old(shared.pool), shared.pool) && old(looks) <= looks
      ensures r.Chosen? ==> GoesOn(old(shared.pool), sel) && r.node in shared.pool.selections[sel].passed
      ensures r == StillWaiting ==> script == []
      ensures r != StillWaiting ==> last in old(script)
      ensures r.Chosen? <==> r != StillWaiting && last.chosen.Some? && IsFoundAlive(sel, last.chosen.value)
      ensures r.Chosen? ==> last.chosen == Some(r.node)
      ensures r == ErrNodeError ==> !last.initializing
      ensures r == ErrCtx ==> last.initializing && last.ctxDone
    {
      while true
        invariant shared.Valid() && GoesOn(old(shared.pool), sel) && old(looks) <= looks
        invariant forall x :: x in script ==> x in old(script)
        decreases |script|
      {
        var best, hanging, t := Select(sel);
        last := t;
        if hanging { return StillWaiting, last; }
        if best.Some? { return Chosen(best.value), last; }
        if !t.initializing { return ErrNodeError, last; }
        if t.ctxDone { return ErrCtx, last; }
      }
    }

    /** The selection hands out a node it has just found alive. */
    method Return(sel: nat, node: nat)
      requires shared.Valid() && IsLooking(shared.pool, sel) && node in shared.pool.selections[sel].passed
      modifies shared
      ensures shared.Valid() && Continues(old(shared.pool), shared.pool)
      ensures IsServed(sel, node, old(shared.pool).selections[sel].began)
    {
      StepContinues(shared.cfg, shared.pool, ReturnNode(sel, node));
      shared.Do(ReturnNode(sel, node));
      shared.Fits();
      ReturnedCovers(shared.cfg, shared.pool, sel);
    }

    /** SelectRPC ended with the node, which is no more than the offset behind any of the first `n` answers. */
    ghost predicate IsServed(sel: nat, node: nat, n: nat)
      reads shared
    {
      && sel < |shared.pool.selections| && shared.pool.selections[sel].returned == Some(node)
      && node in shared.pool.selections[sel].passed
      && forall i :: 0 <= i < n && i < |shared.pool.answers| ==>
           shared.pool.answers[i].finalized == shared.cfg.finalityTag ==> Covers(shared.cfg, shared.pool, sel, i)
    }

    /** selectNode, whatever other goroutines do meanwhile.  A node it returns is at most the offset behind every
        number that any node of the pool had returned to a user before the call, and becomes the active node; a
        failed selection leaves none.  The active node, or the one `held` when the lock is taken, gives way to
        another only if a look during the call found it not alive.  An error needs a turn that calls for it. */
    method SelectNode(randomRpc: bool)
      returns (r: Selected, ghost sel: nat, ghost held: Option<nat>, ghost last: Turn)
      requires shared.Valid()
      modifies this, shared
      ensures shared.Valid() && Continues(old(shared.pool), shared.pool)
      ensures r.Chosen? ==> IsServed(sel, r.node, |old(shared.pool).answers|)
      ensures randomRpc ==> activeNode == old(activeNode)
      ensures !randomRpc && r.Chosen? ==> activeNode == Some(r.node)
      ensures !randomRpc && (r == ErrNodeError || r == ErrCtx) ==> activeNode == None
      ensures old(looks) <= looks && (r == StillWaiting ==> script == [])
      ensures !randomRpc ==> GivesWay(r, |old(looks)|, old(activeNode)) && GivesWay(r, |old(looks)|, held)
      ensures !randomRpc && r == StillWaiting ==> activeNode == held
      ensures r == ErrNodeError || r == ErrCtx ==> last in old(script) && CallsForError(r, sel, last)
    {
      held, last := activeNode, NO_TURN;
      var i := |shared.pool.selections|;
      sel := i;
      StepContinues(shared.cfg, shared.pool, RpcPool.Select);
      shared.Do(RpcPool.Select);
      if randomRpc {
        r, last := AwaitNodeSelection(i);
        if r.Chosen? { Return(i, r.node); }
        return;
      }
      r := KeepActive(i);
      if r == ErrNodeError {
        assert HasActive() ==> looks[|old(looks)|] == LookAt(activeNode.value, false);
        r, held, last := SelectLocked(i);
      }
    }

    /** The part of it under the lock: another goroutine may have selected a node meanwhile. */
    method SelectLocked(sel: nat) returns (r: Selected, ghost held: Option<nat>, ghost last: Turn)
      requires shared.Valid() && IsLooking(shared.pool, sel)
      modifies this, shared
      ensures shared.Valid() && Continues(old(shared.pool), shared.pool) && old(looks) <= looks
      ensures r.Chosen? ==> IsServed(sel, r.node, old(shared.pool).selections[sel].began)
      ensures r.Chosen? ==> activeNode == Some(r.node)
      ensures r == ErrNodeError || r == ErrCtx ==> activeNode == None
      ensures r == StillWaiting ==> script == [] && activeNode == held
      ensures GivesWay(r, |old(looks)|, held)
      ensures r == ErrNodeError || r == ErrCtx ==> last in old(script) && CallsForError(r, sel, last)
    {
      held, last := activeNode, NO_TURN;
      if script == [] { return StillWaiting, held, last; }
      var t := Wait(sel);
      activeNode, held := t.found, t.found;
      r := KeepActive(sel);
      if r == ErrNodeError {
        assert HasActive() ==> looks[|looks| - 1] == LookAt(held.value, false);
        r, last := AwaitNodeSelection(sel);
        if r == StillWaiting { return; }
        activeNode := if r.Chosen? then Some(r.node) else None;
        if r.Chosen? { Return(sel, r.node); }
      }
    }

    /** The turn found no node to choose, with none initializing, or else with the context done. */
    ghost predicate CallsForError(r: Selected, sel: nat, last: Turn)
      reads shared
    {
      && !(last.chosen.Some? && IsFoundAlive(sel, last.chosen.value))
      && (if r == ErrNodeError then !last.initializing else last.initializing && last.ctxDone)
    }

    /** The result is this node, or there is no such node, or a look since the first `n` found it not alive. */
    ghost predicate GivesWay(r: Selected, n: nat, node: Option<nat>)
      reads this`looks, shared
    {
      || r == StillWaiting || (node.Some? && r == Chosen(node.value))
      || FoundDead(looks, n, node, |shared.pool.clients|)
    }

    ghost predicate HasActive()
      reads this`activeNode, shared
    {
      activeNode.Some? && activeNode.value < |shared.pool.clients|
    }

    /** A look at the active node: it is returned if and only if it is found alive; ErrNodeError if there is none or it
        is found not alive. */
    method KeepActive(sel: nat) returns (r: Selected)
      requires shared.Valid() && IsLooking(shared.pool, sel)
      modifies shared, this`script, this`looks
      ensures shared.Valid() && Continues(old(shared.pool), shared.pool)
      ensures forall x :: x in script ==> x in old(script)
      ensures r == ErrNodeError ==> GoesOn(old(shared.pool), sel)
      ensures r.Chosen? ==> activeNode == Some(r.node) && IsServed(sel, r.node, old(shared.pool).selections[sel].began)
      ensures r == ErrNodeError || r.Chosen? || (r == StillWaiting && script == [])
      ensures looks == if HasActive() && r != StillWaiting then old(looks) + [LookAt(activeNode.value, r.Chosen?)]
                       else old(looks)
      ensures r == ErrNodeError && HasActive() ==> activeNode.value !in shared.pool.selections[sel].passed
      ensures r == ErrNodeError && HasActive() ==> old(script) != []
      ensures r == ErrNodeError && HasActive() && old(script)[0].alive ==>
                IsLagging(shared.cfg, shared.pool, activeNode.value)
      ensures !HasActive() ==> r == ErrNodeError
    {
      if activeNode == None || activeNode.value >= |shared.pool.clients| { return ErrNodeError; }
      var look := IsAlive(sel, activeNode.value);
      match look
      case Hanging => r := StillWaiting;
      case NotAlive => r := ErrNodeError;
      case Alive =>
        Return(sel, activeNode.value);
        r := Chosen(activeNode.value);
    }
  }
}
