/**
  Refusal and the context: a worker is refused only at its select and only
  when the context of its own RPC is done.
 */
module Cancellation {
  import opened Wrappers
  import opened Coordinator
  import opened Workers
  import opened Machine
  import opened Invariant
  import opened Safety

  /** The worker returns, or has returned, without ever having been granted its permit. */
  predicate TurnedAway<R>(x: Worker<R>) {
    (x.pc.Returning? || x.pc.Done?) && x.takes == 0
  }

  /** Between `s` and `t` worker `w` took the context case of its select, and its context was done. */
  predicate TakesContextCase<R>(s: State<R>, t: State<R>, w: Wid) {
    && w in s.workers && w in t.workers && w.rpc < |s.rpcs|
    && s.workers[w].pc.Select? && s.rpcs[w.rpc].ctxDone
    && t.workers[w].pc == Returning(Failed(AcquireFailed))
  }

  /** Step `i` of the run is worker `w` being refused. */
  predicate RefusedAt<R>(run: seq<State<R>>, w: Wid, i: nat) {
    i + 1 < |run| && TakesContextCase(run[i], run[i + 1], w)
  }

  /** Worker `w` was refused somewhere in the first `k` steps of the run. */
  ghost predicate Refused<R>(run: seq<State<R>>, w: Wid, k: nat) {
    exists i :: 0 <= i < k && RefusedAt(run, w, i)
  }

  // ---------- one step ----------

  /** A worker's own step never turns it away. */
  lemma MoveNeverRefuses<R>(kind: Kind, job: Job<R>, c: Coord, x: Worker<R>)
    requires WorkerInv(kind, job, c, x) && Underway(x)
    ensures TurnedAway(StepWorker(kind, job, c, x)) <==> TurnedAway(x)
    ensures x.pc.Select? ==> StepWorker(kind, job, c, x).pc.Connect?
  {
    if x.pc.Returning? && x.defers != [] {
      assert x.takes == 1;
    }
  }

  /** The only step that turns a worker away is taking the context case. */
  lemma StepTurnsAway<R>(plans: seq<Plan<R>>, s: State<R>, a: Action, w: Wid)
    requires Inv(plans, s) && Enabled(plans, s, a) && w in s.workers
    ensures
      var t := Apply(plans, s, a);
      w in t.workers && (TurnedAway(t.workers[w]) <==> TurnedAway(s.workers[w]) || TakesContextCase(s, t, w))
  {
    assert WorkerInv(plans[w.rpc].kind, JobOf(plans, w), s.coord, s.workers[w]);
    if a.Spawn? {
      NextIsNotSpawned(plans, s, a.rpc);
    } else if a == Move(w) {
      MoveNeverRefuses(plans[w.rpc].kind, JobOf(plans, w), s.coord, s.workers[w]);
    }
  }

  // ---------- every run ----------

  lemma RunStep<R>(plans: seq<Plan<R>>, run: seq<State<R>>, k: nat) returns (a: Action)
    requires IsRun(plans, run) && k + 1 < |run|
    ensures Inv(plans, run[k]) && Inv(plans, run[k + 1])
    ensures Enabled(plans, run[k], a) && run[k + 1] == Apply(plans, run[k], a)
  {
    RunInv(plans, run, k);
    RunInv(plans, run, k + 1);
    assert Next(plans, run[k], run[k + 1]);
    a :| Enabled(plans, run[k], a) && run[k + 1] == Apply(plans, run[k], a);
  }

  lemma RefusedOneMore<R>(run: seq<State<R>>, w: Wid, k: nat)
    ensures Refused(run, w, k + 1) <==> Refused(run, w, k) || RefusedAt(run, w, k)
  {
    if RefusedAt(run, w, k) {
      assert 0 <= k < k + 1 && RefusedAt(run, w, k);
    }
    if Refused(run, w, k) {
      var i :| 0 <= i < k && RefusedAt(run, w, i);
      assert 0 <= i < k + 1 && RefusedAt(run, w, i);
    }
  }

  /** In every run, a worker has been turned away exactly when it took the context case of a done context. */
  lemma {:induction false} TurnedAwayIffRefused<R>(plans: seq<Plan<R>>, run: seq<State<R>>, w: Wid, k: nat)
    requires IsRun(plans, run) && IsWid(plans, w) && k < |run|
    ensures w in run[k].workers
    ensures TurnedAway(run[k].workers[w]) <==> Refused(run, w, k)
  {
    RunInv(plans, run, k);
    if k > 0 {
      TurnedAwayIffRefused(plans, run, w, k - 1);
      var a := RunStep(plans, run, k - 1);
      StepTurnsAway(plans, run[k - 1], a, w);
      RefusedOneMore(run, w, k - 1);
    }
  }

  lemma ContextStepStays<R>(plans: seq<Plan<R>>, s: State<R>, a: Action, r: nat)
    requires |s.rpcs| == |plans| && r < |plans| && Enabled(plans, s, a) && s.rpcs[r].ctxDone
    ensures Apply(plans, s, a).rpcs[r].ctxDone
  {
  }

  /** A context that is done stays done. */
  lemma {:induction false} ContextStaysDone<R>(plans: seq<Plan<R>>, run: seq<State<R>>, i: nat, k: nat, r: nat)
    requires IsRun(plans, run) && i <= k < |run| && r < |plans|
    requires |run[i].rpcs| == |plans| && run[i].rpcs[r].ctxDone
    ensures |run[k].rpcs| == |plans| && run[k].rpcs[r].ctxDone
    decreases k - i
  {
    if i < k {
      ContextStaysDone(plans, run, i, k - 1, r);
      var a := RunStep(plans, run, k - 1);
      ContextStepStays(plans, run[k - 1], a, r);
    }
  }

  /**
    A worker that was refused was refused by its own RPC's context, so ending
    one RPC's context never makes a worker of another RPC fail.
   */
  lemma RefusedByItsOwnContext<R>(plans: seq<Plan<R>>, run: seq<State<R>>, w: Wid, k: nat)
    requires IsRun(plans, run) && IsWid(plans, w) && k < |run|
    ensures Shaped(plans, run[k])
    ensures TurnedAway(run[k].workers[w]) ==> Refused(run, w, k) && run[k].rpcs[w.rpc].ctxDone
    ensures run[k].workers[w].pc.Done? && run[k].workers[w].pc.res == Failed(AcquireFailed)
        ==> run[k].rpcs[w.rpc].ctxDone
  {
    RunInv(plans, run, k);
    TurnedAwayIffRefused(plans, run, w, k);
    CountersBalance(plans, run[k], w);
    if Refused(run, w, k) {
      var i :| 0 <= i < k && RefusedAt(run, w, i);
      RunInv(plans, run, i);
      ContextStaysDone(plans, run, i, k, w.rpc);
    }
  }
}
