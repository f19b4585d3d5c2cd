/** Deadlock-freedom, bounded runs, and what the end of a run looks like. */
module Progress {
  import opened Wrappers
  import opened Coordinator
  import opened Workers
  import opened Gathering
  import opened FanOut
  import opened Machine
  import opened Invariant
  import opened Safety

  // ---------- some thread can always move ----------

  /** A worker inside the critical section never waits: nothing under the mutex blocks. */
  lemma CriticalCanMove<R>(plans: seq<Plan<R>>, s: State<R>, w: Wid)
    requires Inv(plans, s) && w in s.workers && InCritical(s.workers[w])
    ensures Enabled(plans, s, Move(w))
  {
  }

  /** A permit holder waits for the mutex only: never for a permit, a token or buffer space. */
  lemma HolderCanMove<R>(plans: seq<Plan<R>>, s: State<R>, w: Wid)
    requires Inv(plans, s) && s.mu == None && w in s.workers && HoldsPermit(s.workers[w])
    ensures Enabled(plans, s, Move(w))
  {
    assert WorkerInv(plans[w.rpc].kind, JobOf(plans, w), s.coord, s.workers[w]);
    if s.workers[w].pc.Drain? {
      DrainReady(plans, s, w);
    }
  }

  /** A worker at the select can send unless some other worker holds the permit it waits for. */
  lemma WaiterIsFreeOrBlockedByHolder<R>(plans: seq<Plan<R>>, s: State<R>, w: Wid) returns (v: Wid)
    requires Inv(plans, s) && w in s.workers && s.workers[w].pc.Select?
    ensures v in s.workers
    ensures (v == w && Enabled(plans, s, Move(w)))
        || (HoldsPermit(s.workers[v]) && NameOf(plans, v) == NameOf(plans, w))
  {
    assert WorkerInv(plans[w.rpc].kind, JobOf(plans, w), s.coord, s.workers[w]);
    var c := s.workers[w].pc.ref.value;
    if s.coord.CanSend(Some(c)) {
      v := w;
    } else {
      assert |Holders(s, c)| == 1;
      assert Holders(s, c) != {};
      v :| v in Holders(s, c);
      HolderKnowsItsChannel(plans, s, v);
    }
  }

  lemma OtherCanMove<R>(plans: seq<Plan<R>>, s: State<R>, w: Wid)
    requires Inv(plans, s) && s.mu == None && w in s.workers && Underway(s.workers[w])
    requires !s.workers[w].pc.Select? && !HoldsPermit(s.workers[w])
    ensures Enabled(plans, s, Move(w))
  {
    assert WorkerInv(plans[w.rpc].kind, JobOf(plans, w), s.coord, s.workers[w]);
    if s.workers[w].pc.Returning? {
      ResultsAccounted(plans, s, w.rpc);
      assert !s.workers[Wid(w.rpc, w.job)].pc.Done?;
    }
  }

  /** A step that is a goroutine's own, needing no help from the environment. */
  predicate Internal(a: Action) {
    a.Spawn? || a.Move? || a.Receive? || a.Return?
  }

  lemma UnderwayMeansMovable<R>(plans: seq<Plan<R>>, s: State<R>, w: Wid) returns (a: Action)
    requires Inv(plans, s) && w in s.workers && Underway(s.workers[w])
    ensures Internal(a) && Enabled(plans, s, a)
  {
    if s.mu.Some? {
      CriticalCanMove(plans, s, s.mu.value);
      a := Move(s.mu.value);
    } else if HoldsPermit(s.workers[w]) {
      HolderCanMove(plans, s, w);
      a := Move(w);
    } else if s.workers[w].pc.Select? {
      var v := WaiterIsFreeOrBlockedByHolder(plans, s, w);
      if HoldsPermit(s.workers[v]) {
        HolderCanMove(plans, s, v);
      }
      a := Move(v);
    } else {
      OtherCanMove(plans, s, w);
      a := Move(w);
    }
  }

  /** A collector with messages still to come has one in its buffer once every worker has sent. */
  lemma AllSentFillsBuffer<R>(plans: seq<Plan<R>>, s: State<R>, r: nat)
    requires Inv(plans, s) && r < |plans|
    requires forall j: nat | j < |plans[r].jobs| :: s.workers[Wid(r, j)].pc.Done?
    ensures |s.rpcs[r].log| + |s.rpcs[r].buffer| == |plans[r].jobs|
  {
    var n := |plans[r].jobs|;
    ResultsAccounted(plans, s, r);
    forall j: nat ensures j in SentJobs(plans, s, r) <==> j in Below(n) {}
    assert SentJobs(plans, s, r) == Below(n);
  }

  lemma CollectorMovable<R>(plans: seq<Plan<R>>, s: State<R>, r: nat) returns (a: Action)
    requires Inv(plans, s) && r < |plans| && !s.rpcs[r].phase.Returned?
    requires forall w | w in s.workers :: !Underway(s.workers[w])
    ensures Internal(a) && Enabled(plans, s, a)
  {
    assert RpcInv(plans, s, r);
    if s.rpcs[r].phase.Spawning? {
      a := Spawn(r);
    } else {
      forall j: nat | j < |plans[r].jobs| ensures s.workers[Wid(r, j)].pc.Done? {
        assert Wid(r, j) in s.workers;
        assert !s.workers[Wid(r, j)].pc.NotSpawned?;
      }
      AllSentFillsBuffer(plans, s, r);
      a := if |s.rpcs[r].log| == |plans[r].jobs| then Return(r) else Receive(r);
    }
  }

  /** No reachable state is a deadlock: until everything has finished, some goroutine can run. */
  lemma DeadlockFree<R>(plans: seq<Plan<R>>, s: State<R>)
    requires Inv(plans, s) && !Finished(s)
    ensures exists a :: Internal(a) && Enabled(plans, s, a)
  {
    if w :| w in s.workers && Underway(s.workers[w]) {
      var a := UnderwayMeansMovable(plans, s, w);
    } else if r: nat :| r < |plans| && !s.rpcs[r].phase.Returned? {
      var a := CollectorMovable(plans, s, r);
    } else {
      forall w | w in s.workers ensures s.workers[w].pc.Done? {
        assert RpcInv(plans, s, w.rpc);
        assert Wid(w.rpc, w.job) == w;
        assert !Underway(s.workers[w]);
      }
      assert false;
    }
  }

  // ---------- every step makes progress ----------

  function ScriptLength<R>(script: Script<R>): nat {
    if script.Delivers? then |script.rows| else 0
  }

  /** An upper bound on the steps the worker still has to make. */
  function WorkerCost<R>(job: Job<R>, x: Worker<R>): nat {
    var len := ScriptLength(job.script);
    match x.pc
    case NotSpawned => 17 + len
    case AcquireLock => 16 + len
    case AcquireCheck => 15 + len
    case AcquireRead => 14 + len
    case AcquireUnlock(_) => 13 + len
    case Select(_) => 12 + len
    case Connect => 11 + len
    case Query => 10 + len
    case Reading(next, _) => if next <= len then 9 + len - next else 9
    case Returning(_) => if x.defers == [] then 1 else 5 + |x.defers|
    case ReleaseLock(_) => 5
    case ReleaseRead(_) => 4
    case ReleaseUnlock(_, _) => 3
    case Drain(_, _) => 2
    case Done(_) => 0
  }

  function JobsCost<R>(plans: seq<Plan<R>>, s: State<R>, r: nat, n: nat): nat
    requires r < |plans| && n <= |plans[r].jobs|
    requires forall j: nat | j < n :: Wid(r, j) in s.workers
  {
    if n == 0 then 0
    else JobsCost(plans, s, r, n - 1) + WorkerCost(plans[r].jobs[n - 1], s.workers[Wid(r, n - 1)])
  }

  function CollectorCost<R>(n: nat, c: Rpc<R>): nat {
    (if c.ctxDone then 0 else 1) +
    (match c.phase
     case Spawning(_) => n + 2
     case Collecting => if |c.log| <= n then n - |c.log| + 1 else 1
     case Returned(_) => 0)
  }

  function RpcCost<R>(plans: seq<Plan<R>>, s: State<R>, r: nat): nat
    requires Shaped(plans, s) && r < |plans|
  {
    CollectorCost(|plans[r].jobs|, s.rpcs[r]) + JobsCost(plans, s, r, |plans[r].jobs|)
  }

  function RpcsCost<R>(plans: seq<Plan<R>>, s: State<R>, n: nat): nat
    requires Shaped(plans, s) && n <= |plans|
  {
    if n == 0 then 0 else RpcsCost(plans, s, n - 1) + RpcCost(plans, s, n - 1)
  }

  /** An upper bound on the number of steps any run can still make from `s`. */
  function Measure<R>(plans: seq<Plan<R>>, s: State<R>): nat
    requires Shaped(plans, s)
  {
    RpcsCost(plans, s, |plans|)
  }

  lemma WorkerStepCosts<R>(kind: Kind, job: Job<R>, c: Coord, x: Worker<R>)
    requires WorkerInv(kind, job, c, x) && Underway(x)
    ensures WorkerCost(job, StepWorker(kind, job, c, x)) < WorkerCost(job, x)
  {
    if x.pc.Returning? && x.defers != [] {
      assert x.defers[|x.defers| - 1] == FULL_STACK[|x.defers| - 1];
    }
  }

  lemma {:induction false} JobsCostUnchanged<R>(plans: seq<Plan<R>>, s: State<R>, t: State<R>, r: nat, n: nat)
    requires Shaped(plans, s) && Shaped(plans, t) && r < |plans| && n <= |plans[r].jobs|
    requires forall j: nat | j < n :: t.workers[Wid(r, j)] == s.workers[Wid(r, j)]
    ensures JobsCost(plans, t, r, n) == JobsCost(plans, s, r, n)
  {
    if n > 0 {
      JobsCostUnchanged(plans, s, t, r, n - 1);
    }
  }

  lemma {:induction false} JobsCostDrops<R>(plans: seq<Plan<R>>, s: State<R>, t: State<R>, w: Wid, n: nat)
    requires Shaped(plans, s) && Shaped(plans, t) && OnlyMoved(s, t, w)
    requires w.job < n <= |plans[w.rpc].jobs|
    requires WorkerCost(JobOf(plans, w), t.workers[w]) < WorkerCost(JobOf(plans, w), s.workers[w])
    ensures JobsCost(plans, t, w.rpc, n) < JobsCost(plans, s, w.rpc, n)
  {
    if w.job == n - 1 {
      JobsCostUnchanged(plans, s, t, w.rpc, n - 1);
    } else {
      JobsCostDrops(plans, s, t, w, n - 1);
    }
  }

  lemma {:induction false} RpcsCostUnchanged<R>(plans: seq<Plan<R>>, s: State<R>, t: State<R>, n: nat)
    requires Shaped(plans, s) && Shaped(plans, t) && n <= |plans|
    requires forall r: nat | r < n :: RpcCost(plans, t, r) == RpcCost(plans, s, r)
    ensures RpcsCost(plans, t, n) == RpcsCost(plans, s, n)
  {
    if n > 0 {
      RpcsCostUnchanged(plans, s, t, n - 1);
    }
  }

  lemma {:induction false} RpcsCostDrops<R>(plans: seq<Plan<R>>, s: State<R>, t: State<R>, r: nat, n: nat)
    requires Shaped(plans, s) && Shaped(plans, t) && r < n <= |plans|
    requires RpcCost(plans, t, r) < RpcCost(plans, s, r)
    requires forall q: nat | q < |plans| && q != r :: RpcCost(plans, t, q) == RpcCost(plans, s, q)
    ensures RpcsCost(plans, t, n) < RpcsCost(plans, s, n)
  {
    if r == n - 1 {
      RpcsCostUnchanged(plans, s, t, n - 1);
    } else {
      RpcsCostDrops(plans, s, t, r, n - 1);
    }
  }

  /** The RPC an action belongs to. */
  function RpcOf(a: Action): nat {
    match a
    case Move(w) => w.rpc
    case GiveUp(w) => w.rpc
    case _ => a.rpc
  }

  lemma OtherRpcsCost<R>(plans: seq<Plan<R>>, s: State<R>, a: Action, q: nat)
    requires Shaped(plans, s) && Enabled(plans, s, a) && q < |plans| && q != RpcOf(a)
    requires Shaped(plans, Apply(plans, s, a))
    ensures RpcCost(plans, Apply(plans, s, a), q) == RpcCost(plans, s, q)
  {
    JobsCostUnchanged(plans, s, Apply(plans, s, a), q, |plans[q].jobs|);
  }

  lemma WorkerActionCosts<R>(plans: seq<Plan<R>>, s: State<R>, t: State<R>, w: Wid)
    requires Shaped(plans, s) && Shaped(plans, t) && OnlyMoved(s, t, w)
    requires WorkerCost(JobOf(plans, w), t.workers[w]) < WorkerCost(JobOf(plans, w), s.workers[w])
    requires CollectorCost(|plans[w.rpc].jobs|, t.rpcs[w.rpc]) == CollectorCost(|plans[w.rpc].jobs|, s.rpcs[w.rpc])
    ensures RpcCost(plans, t, w.rpc) < RpcCost(plans, s, w.rpc)
  {
    JobsCostDrops(plans, s, t, w, |plans[w.rpc].jobs|);
  }

  lemma MoveCosts<R>(plans: seq<Plan<R>>, s: State<R>, w: Wid)
    requires Shaped(plans, s) && WorkersInv(plans, s) && Enabled(plans, s, Move(w))
    requires Shaped(plans, Apply(plans, s, Move(w)))
    ensures RpcCost(plans, Apply(plans, s, Move(w)), w.rpc) < RpcCost(plans, s, w.rpc)
  {
    var t := Apply(plans, s, Move(w));
    WorkerStepCosts(plans[w.rpc].kind, JobOf(plans, w), s.coord, s.workers[w]);
    WorkerActionCosts(plans, s, t, w);
  }

  lemma GiveUpCosts<R>(plans: seq<Plan<R>>, s: State<R>, w: Wid)
    requires Shaped(plans, s) && WorkersInv(plans, s) && Enabled(plans, s, GiveUp(w))
    requires Shaped(plans, Apply(plans, s, GiveUp(w)))
    ensures RpcCost(plans, Apply(plans, s, GiveUp(w)), w.rpc) < RpcCost(plans, s, w.rpc)
  {
    var t := Apply(plans, s, GiveUp(w));
    assert WorkerInv(plans[w.rpc].kind, JobOf(plans, w), s.coord, s.workers[w]);
    WorkerActionCosts(plans, s, t, w);
  }

  lemma CollectorActionCosts<R>(plans: seq<Plan<R>>, s: State<R>, a: Action)
    requires Shaped(plans, s) && Enabled(plans, s, a) && !a.Move? && !a.GiveUp?
    requires RpcInv(plans, s, RpcOf(a))
    requires Shaped(plans, Apply(plans, s, a))
    ensures RpcCost(plans, Apply(plans, s, a), RpcOf(a)) < RpcCost(plans, s, RpcOf(a))
  {
    var t := Apply(plans, s, a);
    var r := RpcOf(a);
    if a.Spawn? && s.rpcs[r].phase.next < |plans[r].jobs| {
      WorkerActionCosts(plans, s, t, Wid(r, s.rpcs[r].phase.next));
    } else {
      JobsCostUnchanged(plans, s, t, r, |plans[r].jobs|);
    }
  }

  lemma OwnRpcCost<R>(plans: seq<Plan<R>>, s: State<R>, a: Action)
    requires Inv(plans, s) && Enabled(plans, s, a)
    requires Shaped(plans, Apply(plans, s, a))
    ensures RpcOf(a) < |plans| && RpcCost(plans, Apply(plans, s, a), RpcOf(a)) < RpcCost(plans, s, RpcOf(a))
  {
    match a
    case Move(w) => MoveCosts(plans, s, w);
    case GiveUp(w) => GiveUpCosts(plans, s, w);
    case _ => CollectorActionCosts(plans, s, a);
  }

  /** Every step, the environment's included, lowers the measure. */
  lemma EveryStepDecreases<R>(plans: seq<Plan<R>>, s: State<R>, a: Action)
    requires Inv(plans, s) && Enabled(plans, s, a)
    ensures Shaped(plans, Apply(plans, s, a))
    ensures Measure(plans, Apply(plans, s, a)) < Measure(plans, s)
  {
    StepKeepsInv(plans, s, a);
    var t := Apply(plans, s, a);
    OwnRpcCost(plans, s, a);
    forall q: nat | q < |plans| && q != RpcOf(a) ensures RpcCost(plans, t, q) == RpcCost(plans, s, q) {
      OtherRpcsCost(plans, s, a, q);
    }
    RpcsCostDrops(plans, s, t, RpcOf(a), |plans|);
  }

  /** No run is longer than the measure of its first state allows. */
  lemma {:induction false} RunsAreBounded<R>(plans: seq<Plan<R>>, run: seq<State<R>>)
    requires IsRun(plans, run)
    ensures Shaped(plans, run[0]) && Shaped(plans, run[|run| - 1])
    ensures |run| - 1 + Measure(plans, run[|run| - 1]) <= Measure(plans, run[0])
    decreases |run|
  {
    if |run| > 1 {
      var before, a := LastStep(plans, run);
      RunsAreBounded(plans, before);
      EveryStepDecreases(plans, run[|run| - 2], a);
    }
  }

  // ---------- the end of a run ----------

  /** No goroutine can move any more. */
  ghost predicate Stuck<R>(plans: seq<Plan<R>>, s: State<R>) {
    |s.rpcs| == |plans| && forall a | Internal(a) :: !Enabled(plans, s, a)
  }

  /** Nothing is left held: no mutex, no permit, no pool, no message, no token. */
  ghost predicate Quiet<R>(s: State<R>) {
    && s.mu == None
    && (forall w | w in s.workers :: !s.workers[w].poolOpen && s.workers[w].token == None && s.workers[w].defers == [])
    && (forall c | 0 <= c < |s.coord.slots| :: s.coord.slots[c] == 0)
    && (forall r | 0 <= r < |s.rpcs| :: s.rpcs[r].buffer == [])
  }

  /**
    A run that its goroutines cannot extend is exactly a run that has finished:
    every worker has sent, every collector has returned, and then every
    semaphore is empty again.
   */
  lemma MaximalRunsFinish<R>(plans: seq<Plan<R>>, run: seq<State<R>>)
    requires IsRun(plans, run)
    ensures Stuck(plans, run[|run| - 1]) <==> Finished(run[|run| - 1])
    ensures Finished(run[|run| - 1]) ==> Quiet(run[|run| - 1])
  {
    var s := run[|run| - 1];
    RunInv(plans, run, |run| - 1);
    if Finished(s) {
      FinishedIsQuiet(plans, s);
    } else {
      DeadlockFree(plans, s);
    }
  }

  lemma FinishedIsQuiet<R>(plans: seq<Plan<R>>, s: State<R>)
    requires Inv(plans, s) && Finished(s)
    ensures Quiet(s)
  {
    forall w | w in s.workers
      ensures !s.workers[w].poolOpen && s.workers[w].token == None && s.workers[w].defers == []
    {
      assert WorkerInv(plans[w.rpc].kind, JobOf(plans, w), s.coord, s.workers[w]);
    }
    forall c | 0 <= c < |s.coord.slots| ensures s.coord.slots[c] == 0 {
      assert Holders(s, c) == {};
    }
    forall r | 0 <= r < |s.rpcs| ensures s.rpcs[r].buffer == [] {
      ResultsAccounted(plans, s, r);
    }
  }

  /** A step some goroutine takes by itself: the environment does nothing and no one gives up. */
  ghost predicate OwnStep<R>(plans: seq<Plan<R>>, s: State<R>, t: State<R>) {
    |s.rpcs| == |plans| && exists a :: Internal(a) && Enabled(plans, s, a) && t == Apply(plans, s, a)
  }

  /** From position `from` on, every step of `run` is a goroutine's own. */
  ghost predicate OwnSteps<R>(plans: seq<Plan<R>>, run: seq<State<R>>, from: nat) {
    forall k | from <= k < |run| - 1 :: OwnStep(plans, run[k], run[k + 1])
  }

  lemma OwnStepsGlue<R>(plans: seq<Plan<R>>, run: seq<State<R>>, t: State<R>, whole: seq<State<R>>)
    requires |run| > 0 && run + [t] <= whole
    requires OwnStep(plans, run[|run| - 1], t) && OwnSteps(plans, whole, |run|)
    ensures run <= whole && OwnSteps(plans, whole, |run| - 1)
  {
    assert whole[|run| - 1] == (run + [t])[|run| - 1] && whole[|run|] == (run + [t])[|run|];
    forall k | |run| - 1 <= k < |whole| - 1 ensures OwnStep(plans, whole[k], whole[k + 1]) {
      if k == |run| - 1 {
        assert whole[k + 1] == t;
      }
    }
  }

  /**
    From every state of every run the goroutines alone can carry on to the end:
    no context is ended and no worker gives up on the way.
   */
  lemma {:induction false} EveryRunCanFinish<R>(plans: seq<Plan<R>>, run: seq<State<R>>) returns (whole: seq<State<R>>)
    requires IsRun(plans, run)
    ensures IsRun(plans, whole) && run <= whole && OwnSteps(plans, whole, |run| - 1)
    ensures Finished(whole[|whole| - 1]) && Quiet(whole[|whole| - 1])
    decreases LastMeasure(plans, run)
  {
    var s := run[|run| - 1];
    RunInv(plans, run, |run| - 1);
    if Finished(s) {
      FinishedIsQuiet(plans, s);
      whole := run;
    } else {
      DeadlockFree(plans, s);
      var a :| Internal(a) && Enabled(plans, s, a);
      var t := Apply(plans, s, a);
      RunExtends(plans, run, a);
      EveryStepDecreases(plans, s, a);
      assert (run + [t])[|run + [t]| - 1] == t;
      whole := EveryRunCanFinish(plans, run + [t]);
      OwnStepsGlue(plans, run, t, whole);
    }
  }

  lemma RunExtends<R>(plans: seq<Plan<R>>, run: seq<State<R>>, a: Action)
    requires IsRun(plans, run) && |run[|run| - 1].rpcs| == |plans| && Enabled(plans, run[|run| - 1], a)
    ensures IsRun(plans, run + [Apply(plans, run[|run| - 1], a)])
  {
    var longer := run + [Apply(plans, run[|run| - 1], a)];
    forall k | 0 <= k < |longer| - 1 ensures Next(plans, longer[k], longer[k + 1]) {
      if k < |run| - 1 {
        assert Next(plans, run[k], run[k + 1]);
      }
    }
  }

  ghost function LastMeasure<R>(plans: seq<Plan<R>>, run: seq<State<R>>): nat
    requires IsRun(plans, run)
  {
    RunInv(plans, run, |run| - 1);
    Measure(plans, run[|run| - 1])
  }
}
