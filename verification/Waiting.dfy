/**
  Where a goroutine waits, exactly: what the environment and the other
  goroutines can and cannot keep from running.
 */
module Waiting {
  import opened Wrappers
  import opened Coordinator
  import opened Workers
  import opened FanOut
  import opened Machine
  import opened Invariant
  import opened Safety
  import opened Cancellation
  import opened Progress

  /** Between `s` and `t` worker `w` took the send case of its select. */
  predicate TakesSendCase<R>(s: State<R>, t: State<R>, w: Wid) {
    && w in s.workers && w in t.workers
    && s.workers[w].pc.Select? && t.workers[w].pc.Connect? && t.workers[w].token == s.workers[w].pc.ref
  }

  /** Every worker but `w` is as it was. */
  ghost predicate OthersStay<R>(s: State<R>, t: State<R>, w: Wid) {
    && t.workers.Keys == s.workers.Keys
    && forall v | v in s.workers && v != w :: t.workers[v] == s.workers[v]
  }

  /** No worker of any RPC is between its send and its drain for database `d`. */
  ghost predicate PermitFree<R>(plans: seq<Plan<R>>, s: State<R>, d: string)
    requires Shaped(plans, s)
  {
    forall v | v in s.workers && NameOf(plans, v) == d :: s.workers[v].token.None?
  }

  // ---------- the select ----------

  /** A worker whose context is done can leave the select at once, whoever holds the permit. */
  lemma ContextCaseCanRun<R>(plans: seq<Plan<R>>, s: State<R>, w: Wid) returns (t: State<R>)
    requires Inv(plans, s) && w in s.workers && s.workers[w].pc.Select? && s.rpcs[w.rpc].ctxDone
    ensures Next(plans, s, t) && TakesContextCase(s, t, w)
    ensures t.mu == s.mu && t.coord == s.coord && t.rpcs == s.rpcs && OthersStay(s, t, w)
  {
    t := Apply(plans, s, GiveUp(w));
    assert Enabled(plans, s, GiveUp(w));
  }

  lemma SendableIffFree<R>(plans: seq<Plan<R>>, s: State<R>, w: Wid)
    requires Inv(plans, s) && w in s.workers && s.workers[w].pc.Select?
    ensures s.coord.CanSend(s.workers[w].pc.ref) <==> PermitFree(plans, s, NameOf(plans, w))
  {
    if s.coord.CanSend(s.workers[w].pc.ref) {
      forall v | v in s.workers && NameOf(plans, v) == NameOf(plans, w) ensures s.workers[v].token.None? {
        if HoldsPermit(s.workers[v]) {
          FreeWhenSendable(plans, s, w, v);
        }
      }
    } else {
      var v := WaiterIsFreeOrBlockedByHolder(plans, s, w);
    }
  }

  /**
    A worker whose database nobody holds can send at once: what happens on other
    databases, and whether its own context is done, does not matter.
   */
  lemma SendCaseCanRun<R>(plans: seq<Plan<R>>, s: State<R>, w: Wid) returns (t: State<R>)
    requires Inv(plans, s) && w in s.workers && s.workers[w].pc.Select? && PermitFree(plans, s, NameOf(plans, w))
    ensures Next(plans, s, t) && TakesSendCase(s, t, w)
    ensures t.mu == s.mu && t.coord.sems == s.coord.sems && t.rpcs == s.rpcs && OthersStay(s, t, w)
  {
    SendableIffFree(plans, s, w);
    t := Apply(plans, s, Move(w));
    assert Enabled(plans, s, Move(w));
    assert t.rpcs == s.rpcs;
  }

  lemma SendCaseNeedsRoom<R>(plans: seq<Plan<R>>, s: State<R>, t: State<R>, w: Wid)
    requires Inv(plans, s) && Next(plans, s, t) && TakesSendCase(s, t, w)
    ensures s.coord.CanSend(s.workers[w].pc.ref)
  {
    var a :| Enabled(plans, s, a) && t == Apply(plans, s, a);
    if a.Spawn? {
      NextIsNotSpawned(plans, s, a.rpc);
    }
  }

  lemma ContextCaseNeedsContext<R>(plans: seq<Plan<R>>, s: State<R>, w: Wid)
    requires Inv(plans, s) && w in s.workers && s.workers[w].pc.Select?
    ensures (exists t :: Next(plans, s, t) && TakesContextCase(s, t, w)) <==> s.rpcs[w.rpc].ctxDone
  {
    if s.rpcs[w.rpc].ctxDone {
      var t := ContextCaseCanRun(plans, s, w);
    }
  }

  /** Each case of the select can run exactly when the source's is ready; both may be. */
  lemma SelectExactly<R>(plans: seq<Plan<R>>, s: State<R>, w: Wid)
    requires Inv(plans, s) && w in s.workers && s.workers[w].pc.Select?
    ensures (exists t :: Next(plans, s, t) && TakesContextCase(s, t, w)) <==> s.rpcs[w.rpc].ctxDone
    ensures (exists t :: Next(plans, s, t) && TakesSendCase(s, t, w)) <==> PermitFree(plans, s, NameOf(plans, w))
  {
    ContextCaseNeedsContext(plans, s, w);
    SendableIffFree(plans, s, w);
    if PermitFree(plans, s, NameOf(plans, w)) {
      var t := SendCaseCanRun(plans, s, w);
    }
    if t :| Next(plans, s, t) && TakesSendCase(s, t, w) {
      SendCaseNeedsRoom(plans, s, t, w);
    }
  }

  // ---------- every place a goroutine can wait ----------

  /** A step between `s` and `t` was made by worker `w`, or for it by its context. */
  ghost predicate Advances<R>(s: State<R>, t: State<R>, w: Wid) {
    w in s.workers && w in t.workers && t.workers[w] != s.workers[w]
  }

  lemma MoveAdvances<R>(plans: seq<Plan<R>>, s: State<R>, w: Wid)
    requires Inv(plans, s) && w in s.workers && Underway(s.workers[w]) && Enabled(plans, s, Move(w))
    ensures Next(plans, s, Apply(plans, s, Move(w))) && Advances(s, Apply(plans, s, Move(w)), w)
  {
    assert WorkerInv(plans[w.rpc].kind, JobOf(plans, w), s.coord, s.workers[w]);
  }

  lemma OnlyOwnActionsAdvance<R>(plans: seq<Plan<R>>, s: State<R>, a: Action, w: Wid)
    requires Inv(plans, s) && w in s.workers && Underway(s.workers[w])
    requires Enabled(plans, s, a) && Advances(s, Apply(plans, s, a), w)
    ensures a == Move(w) || a == GiveUp(w)
  {
    if a.Spawn? {
      NextIsNotSpawned(plans, s, a.rpc);
    }
  }

  /** Outside the lock and the select, a started worker can always move. */
  lemma NowhereElse<R>(plans: seq<Plan<R>>, s: State<R>, w: Wid)
    requires Inv(plans, s) && w in s.workers && Underway(s.workers[w])
    requires !s.workers[w].pc.AcquireLock? && !s.workers[w].pc.ReleaseLock? && !s.workers[w].pc.Select?
    ensures Enabled(plans, s, Move(w))
  {
    assert WorkerInv(plans[w.rpc].kind, JobOf(plans, w), s.coord, s.workers[w]);
    if s.workers[w].pc.Drain? {
      DrainReady(plans, s, w);
    } else if s.workers[w].pc.Returning? {
      ResultsAccounted(plans, s, w.rpc);
      assert !s.workers[Wid(w.rpc, w.job)].pc.Done?;
    }
  }

  /**
    A started worker waits in three places and nowhere else: for the mutex,
    twice, and at its select, where it waits only while another worker holds
    its database and its own context is alive.
   */
  lemma WaitsExactly<R>(plans: seq<Plan<R>>, s: State<R>, w: Wid)
    requires Inv(plans, s) && w in s.workers && Underway(s.workers[w])
    ensures
      (exists t :: Next(plans, s, t) && Advances(s, t, w)) <==>
      match s.workers[w].pc
      case AcquireLock => s.mu == None
      case ReleaseLock(_) => s.mu == None
      case Select(_) => s.rpcs[w.rpc].ctxDone || PermitFree(plans, s, NameOf(plans, w))
      case _ => true
  {
    var pc := s.workers[w].pc;
    if pc.Select? {
      SelectExactly(plans, s, w);
      if t :| Next(plans, s, t) && Advances(s, t, w) {
        var a :| Enabled(plans, s, a) && t == Apply(plans, s, a);
        OnlyOwnActionsAdvance(plans, s, a, w);
        SendableIffFree(plans, s, w);
      }
    } else {
      if !pc.AcquireLock? && !pc.ReleaseLock? {
        NowhereElse(plans, s, w);
      }
      if Enabled(plans, s, Move(w)) {
        MoveAdvances(plans, s, w);
      }
      if t :| Next(plans, s, t) && Advances(s, t, w) {
        var a :| Enabled(plans, s, a) && t == Apply(plans, s, a);
        OnlyOwnActionsAdvance(plans, s, a, w);
      }
    }
  }

  /** The collector of RPC `r` made a step of its own. */
  ghost predicate Collects<R>(s: State<R>, t: State<R>, r: nat) {
    && r < |s.rpcs| && r < |t.rpcs|
    && (t.rpcs[r].phase != s.rpcs[r].phase || t.rpcs[r].log != s.rpcs[r].log)
  }

  lemma CollectorActions<R>(plans: seq<Plan<R>>, s: State<R>, r: nat)
    requires Inv(plans, s) && r < |plans| && !s.rpcs[r].phase.Returned?
    requires s.rpcs[r].phase.Spawning? || s.rpcs[r].buffer != [] || |s.rpcs[r].log| == |plans[r].jobs|
    ensures exists a :: Enabled(plans, s, a) && Collects(s, Apply(plans, s, a), r)
  {
    ResultsAccounted(plans, s, r);
    var c := s.rpcs[r];
    var a := if c.phase.Spawning? then Spawn(r) else if |c.log| == |plans[r].jobs| then Return(r) else Receive(r);
    assert Enabled(plans, s, a) && Collects(s, Apply(plans, s, a), r);
  }

  /** A collector waits only for a message: not to start goroutines, and not once it has every message. */
  lemma CollectorWaitsExactly<R>(plans: seq<Plan<R>>, s: State<R>, r: nat)
    requires Inv(plans, s) && r < |plans| && !s.rpcs[r].phase.Returned?
    ensures
      (exists t :: Next(plans, s, t) && Collects(s, t, r)) <==>
      s.rpcs[r].phase.Spawning? || s.rpcs[r].buffer != [] || |s.rpcs[r].log| == |plans[r].jobs|
  {
    if s.rpcs[r].phase.Spawning? || s.rpcs[r].buffer != [] || |s.rpcs[r].log| == |plans[r].jobs| {
      CollectorActions(plans, s, r);
      var a :| Enabled(plans, s, a) && Collects(s, Apply(plans, s, a), r);
      assert Next(plans, s, Apply(plans, s, a));
    }
  }

  /** The environment can end any context at any time, and that alone changes nothing else. */
  lemma ContextCanEnd<R>(plans: seq<Plan<R>>, s: State<R>, r: nat)
    requires Inv(plans, s) && r < |plans| && !s.rpcs[r].ctxDone
    ensures Next(plans, s, s.(rpcs := s.rpcs[r := s.rpcs[r].(ctxDone := true)]))
  {
    assert Enabled(plans, s, CancelRpc(r));
  }
}
