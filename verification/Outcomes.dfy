/** What an RPC of the machine returns, whatever the interleaving. */
module Outcomes {
  import opened Wrappers
  import opened Coordinator
  import opened Workers
  import opened Gathering
  import opened FanOut
  import opened Machine
  import opened Invariant
  import opened Safety
  import opened Cancellation
  import opened Progress

  /** What the workers of RPC `r` sent, by job. */
  ghost function SentOutcomes<R>(plans: seq<Plan<R>>, s: State<R>, r: nat): (outcomes: seq<Fetched<R>>)
    requires Shaped(plans, s) && r < |plans|
    requires forall j: nat | j < |plans[r].jobs| :: s.workers[Wid(r, j)].pc.Done?
    ensures |outcomes| == |plans[r].jobs|
    ensures forall j | 0 <= j < |outcomes| :: outcomes[j] == s.workers[Wid(r, j)].pc.res
  {
    seq(|plans[r].jobs|, j requires 0 <= j < |plans[r].jobs| => s.workers[Wid(r, j)].pc.res)
  }

  lemma DoneSettled<R>(plans: seq<Plan<R>>, s: State<R>, w: Wid)
    requires Shaped(plans, s) && WorkersInv(plans, s) && IsWid(plans, w) && s.workers[w].pc.Done?
    ensures s.workers[w].pc.res == Failed(AcquireFailed) || s.workers[w].pc.res == OutcomeOf(plans, w)
  {
    assert WorkerInv(plans[w.rpc].kind, JobOf(plans, w), s.coord, s.workers[w]);
  }

  lemma ReturnedLogIsComplete<R>(plans: seq<Plan<R>>, s: State<R>, r: nat)
    requires Shaped(plans, s) && r < |plans| && RpcInv(plans, s, r) && s.rpcs[r].phase.Returned?
        && s.rpcs[r].buffer == []
    requires forall j: nat | j < |plans[r].jobs| :: s.workers[Wid(r, j)].pc.Done?
    ensures Complete(s.rpcs[r].log, SentOutcomes(plans, s, r))
  {
    var log := s.rpcs[r].log;
    assert Sent(s.rpcs[r]) == log;
    forall k | 0 <= k < |log|
      ensures log[k].job < |plans[r].jobs| && log[k].res == SentOutcomes(plans, s, r)[log[k].job]
    {
      assert log[k] in Sent(s.rpcs[r]);
    }
  }

  /** When a collector has returned, its log is complete and its answer is the conclusion of that log. */
  lemma ReturnedIsConcluded<R>(plans: seq<Plan<R>>, s: State<R>, r: nat)
    requires Inv(plans, s) && r < |plans| && s.rpcs[r].phase.Returned?
    ensures forall j: nat | j < |plans[r].jobs| :: s.workers[Wid(r, j)].pc.Done?
    ensures Complete(s.rpcs[r].log, SentOutcomes(plans, s, r))
    ensures s.rpcs[r].phase.out == Conclude(s.rpcs[r].log, |plans[r].jobs|)
    ensures forall j: nat | j < |plans[r].jobs| ::
      var res := SentOutcomes(plans, s, r)[j];
      res == Failed(AcquireFailed) || res == OutcomeOf(plans, Wid(r, j))
  {
    ResultsAccounted(plans, s, r);
    assert RpcInv(plans, s, r);
    ReturnedLogIsComplete(plans, s, r);
    forall j: nat | j < |plans[r].jobs|
      ensures s.workers[Wid(r, j)].pc.res == Failed(AcquireFailed)
          || s.workers[Wid(r, j)].pc.res == OutcomeOf(plans, Wid(r, j))
    {
      DoneSettled(plans, s, Wid(r, j));
    }
  }

  /** The environment let every query of the plan run to its end. */
  ghost predicate Clean<R>(job: Job<R>) {
    job.script.Delivers? && job.script.iterationOk && forall i | 0 <= i < |job.script.rows| :: job.script.rows[i].Good?
  }

  /**
    The workers of RPC `r` that cannot have delivered by state `k` of the run:
    refused at their select by their RPC's context, or stopped by the environment.
   */
  ghost function FailedWorkers<R>(plans: seq<Plan<R>>, run: seq<State<R>>, k: nat, r: nat): set<nat>
    requires r < |plans|
  {
    set j | j in Below(|plans[r].jobs|) && (Refused(run, Wid(r, j), k) || !Clean(plans[r].jobs[j]))
  }

  lemma FailedExactly<R>(plans: seq<Plan<R>>, s: State<R>, r: nat, j: nat)
    requires Inv(plans, s) && r < |plans| && j < |plans[r].jobs| && s.workers[Wid(r, j)].pc.Done?
    ensures s.workers[Wid(r, j)].pc.res.Failed? <==> TurnedAway(s.workers[Wid(r, j)]) || !Clean(plans[r].jobs[j])
  {
    var w := Wid(r, j);
    assert WorkerInv(plans[w.rpc].kind, JobOf(plans, w), s.coord, s.workers[w]);
    FetchAccountsForEveryRow(plans[r].kind, plans[r].jobs[j].database, plans[r].jobs[j].script);
  }

  lemma FailedJobsAreFailedWorkers<R>(plans: seq<Plan<R>>, run: seq<State<R>>, k: nat, r: nat)
    requires IsRun(plans, run) && k < |run| && r < |plans|
    requires Inv(plans, run[k]) && forall j: nat | j < |plans[r].jobs| :: run[k].workers[Wid(r, j)].pc.Done?
    ensures FailedJobs(SentOutcomes(plans, run[k], r)) == FailedWorkers(plans, run, k, r)
  {
    var outcomes := SentOutcomes(plans, run[k], r);
    forall j: nat ensures j in FailedJobs(outcomes) <==> j in FailedWorkers(plans, run, k, r) {
      if j < |plans[r].jobs| {
        FailedExactly(plans, run[k], r, j);
        TurnedAwayIffRefused(plans, run, Wid(r, j), k);
      }
    }
  }

  /**
    All or nothing for a whole RPC of the machine: it returns its aggregate
    exactly when no worker took the context case at its select and every
    connection, query, scan and iteration worked; otherwise it reports, out of
    the number of databases, exactly the number of workers that failed.
   */
  lemma RpcAllOrNothing<R>(plans: seq<Plan<R>>, run: seq<State<R>>, k: nat, r: nat)
    requires IsRun(plans, run) && k < |run| && r < |plans|
    requires |run[k].rpcs| == |plans| && run[k].rpcs[r].phase.Returned?
    ensures run[k].rpcs[r].phase.out.Aggregated? <==> FailedWorkers(plans, run, k, r) == {}
    ensures
      run[k].rpcs[r].phase.out.PartlyFailed? ==>
        && run[k].rpcs[r].phase.out.failed == |FailedWorkers(plans, run, k, r)|
        && run[k].rpcs[r].phase.out.total == |plans[r].jobs|
  {
    RunInv(plans, run, k);
    ReturnedIsConcluded(plans, run[k], r);
    AllOrNothing(run[k].rpcs[r].log, SentOutcomes(plans, run[k], r));
    FailedJobsAreFailedWorkers(plans, run, k, r);
    if run[k].rpcs[r].phase.out.Aggregated? {
      assert FailedJobs(SentOutcomes(plans, run[k], r)) == {};
    } else {
      assert |FailedWorkers(plans, run, k, r)| > 0;
    }
  }

  /**
    The workers of RPC `r` that fail for reason `why`: a refused one for its
    acquire, any other for what first went wrong in its own fetch.
   */
  ghost function FailedFor<R>(plans: seq<Plan<R>>, run: seq<State<R>>, k: nat, r: nat, why: Failure): set<nat>
    requires r < |plans|
  {
    set j | j in Below(|plans[r].jobs|) &&
        if Refused(run, Wid(r, j), k) then why == AcquireFailed else OutcomeOf(plans, Wid(r, j)) == Failed(why)
  }

  lemma FailsFor<R>(plans: seq<Plan<R>>, run: seq<State<R>>, k: nat, w: Wid, why: Failure)
    requires IsRun(plans, run) && k < |run| && IsWid(plans, w)
    requires Inv(plans, run[k]) && run[k].workers[w].pc.Done?
    ensures run[k].workers[w].pc.res == Failed(why) <==>
      if Refused(run, w, k) then why == AcquireFailed else OutcomeOf(plans, w) == Failed(why)
  {
    CountersBalance(plans, run[k], w);
    TurnedAwayIffRefused(plans, run, w, k);
    FetchAccountsForEveryRow(plans[w.rpc].kind, NameOf(plans, w), JobOf(plans, w).script);
  }

  /** A failed RPC reports every worker's own reason, each as often as workers failed for it, and no other. */
  lemma RpcReportsEveryReason<R>(plans: seq<Plan<R>>, run: seq<State<R>>, k: nat, r: nat, why: Failure)
    requires IsRun(plans, run) && k < |run| && r < |plans|
    requires |run[k].rpcs| == |plans| && run[k].rpcs[r].phase.Returned? && run[k].rpcs[r].phase.out.PartlyFailed?
    ensures multiset(run[k].rpcs[r].phase.out.errs)[why] == |FailedFor(plans, run, k, r, why)|
  {
    RunInv(plans, run, k);
    ReturnedIsConcluded(plans, run[k], r);
    var outcomes := SentOutcomes(plans, run[k], r);
    AllOrNothing(run[k].rpcs[r].log, outcomes);
    forall j: nat ensures j in FailedWith(outcomes, why) <==> j in FailedFor(plans, run, k, r, why) {
      if j < |plans[r].jobs| {
        FailsFor(plans, run, k, Wid(r, j), why);
      }
    }
    assert FailedWith(outcomes, why) == FailedFor(plans, run, k, r, why);
  }

  /**
    An RPC whose own context was never ended and whose queries all run to their
    end returns its aggregate, in every run and every interleaving, whatever
    happens to the contexts and queries of other RPCs.
   */
  lemma UncancelledRpcSucceeds<R>(plans: seq<Plan<R>>, run: seq<State<R>>, k: nat, r: nat)
    requires IsRun(plans, run) && k < |run| && r < |plans|
    requires |run[k].rpcs| == |plans| && run[k].rpcs[r].phase.Returned? && !run[k].rpcs[r].ctxDone
    requires forall j | 0 <= j < |plans[r].jobs| :: Clean(plans[r].jobs[j])
    ensures run[k].rpcs[r].phase.out.Aggregated?
  {
    RpcAllOrNothing(plans, run, k, r);
    forall j: nat | j < |plans[r].jobs| ensures !Refused(run, Wid(r, j), k) {
      RefusedByItsOwnContext(plans, run, Wid(r, j), k);
      TurnedAwayIffRefused(plans, run, Wid(r, j), k);
    }
    assert FailedWorkers(plans, run, k, r) == {};
  }

  lemma OwnStepKeepsContexts<R>(plans: seq<Plan<R>>, s: State<R>, t: State<R>, r: nat)
    requires OwnStep(plans, s, t) && r < |plans|
    ensures |t.rpcs| == |plans| && t.rpcs[r].ctxDone == s.rpcs[r].ctxDone
  {
  }

  lemma {:induction false} OwnStepsKeepContexts<R>(plans: seq<Plan<R>>, run: seq<State<R>>, from: nat, k: nat, r: nat)
    requires from <= k < |run| && OwnSteps(plans, run, from) && r < |plans| && |run[from].rpcs| == |plans|
    ensures |run[k].rpcs| == |plans| && run[k].rpcs[r].ctxDone == run[from].rpcs[r].ctxDone
    decreases k - from
  {
    if from < k {
      OwnStepsKeepContexts(plans, run, from, k - 1, r);
      assert OwnStep(plans, run[k - 1], run[k - 1 + 1]);
      OwnStepKeepsContexts(plans, run[k - 1], run[k], r);
    }
  }

  /**
    So from every state of every run, the goroutines alone can bring every RPC
    to its end, and those not ended by their context with clean queries succeed.
   */
  lemma GoroutinesAloneSucceed<R>(plans: seq<Plan<R>>, run: seq<State<R>>) returns (whole: seq<State<R>>)
    requires IsRun(plans, run)
    ensures IsRun(plans, whole) && run <= whole && OwnSteps(plans, whole, |run| - 1)
    ensures Shaped(plans, run[|run| - 1]) && Shaped(plans, whole[|whole| - 1])
    ensures forall r | 0 <= r < |plans| && !run[|run| - 1].rpcs[r].ctxDone && AllClean(plans[r]) ::
      whole[|whole| - 1].rpcs[r].phase.Returned? && whole[|whole| - 1].rpcs[r].phase.out.Aggregated?
  {
    whole := EveryRunCanFinish(plans, run);
    var last := |whole| - 1;
    RunInv(plans, run, |run| - 1);
    RunInv(plans, whole, last);
    assert whole[|run| - 1] == run[|run| - 1];
    forall r | 0 <= r < |plans| && !run[|run| - 1].rpcs[r].ctxDone && AllClean(plans[r])
      ensures whole[last].rpcs[r].phase.Returned? && whole[last].rpcs[r].phase.out.Aggregated?
    {
      OwnStepsKeepContexts(plans, whole, |run| - 1, last, r);
      UncancelledRpcSucceeds(plans, whole, last, r);
    }
  }

  ghost predicate AllClean<R>(plan: Plan<R>) {
    forall j | 0 <= j < |plan.jobs| :: Clean(plan.jobs[j])
  }

  // ---------- every row, once, with its own database ----------

  /** All the rows all databases of a plan deliver, each with its database, database after database. */
  function DeliveredBy<R>(job: Job<R>): (rows: seq<(string, R)>)
    requires Clean(job)
    ensures |rows| == |job.script.rows|
    ensures forall i | 0 <= i < |rows| :: rows[i] == (job.database, job.script.rows[i].row)
  {
    seq(|job.script.rows|, i requires 0 <= i < |job.script.rows| => (job.database, job.script.rows[i].row))
  }

  function Delivered<R>(jobs: seq<Job<R>>): seq<(string, R)>
    requires forall j | 0 <= j < |jobs| :: Clean(jobs[j])
  {
    if jobs == [] then [] else Delivered(jobs[..|jobs| - 1]) + DeliveredBy(jobs[|jobs| - 1])
  }

  lemma {:induction false} AttributedAppend<R>(a: seq<Item<R>>, b: seq<Item<R>>)
    ensures Attributed(a + b) == Attributed(a) + Attributed(b)
  {
    if a == [] {
      assert a + b == b;
    } else {
      assert (a + b)[1..] == a[1..] + b;
      AttributedAppend(a[1..], b);
    }
  }

  function RowsOf<R>(m: Message<R>): seq<(string, R)> {
    Attributed(ItemsOf(m))
  }

  lemma {:induction false} AttributedGather<R>(log: seq<Message<R>>)
    ensures Attributed(Gather(log, ItemsOf)) == Gather(log, RowsOf)
  {
    if log != [] {
      var init := log[..|log| - 1];
      AttributedGather(init);
      AttributedAppend(Gather(init, ItemsOf), ItemsOf(log[|log| - 1]));
    }
  }

  lemma {:induction false} SequentialRows<R>(kind: Kind, jobs: seq<Job<R>>, outcomes: seq<Fetched<R>>)
    requires |outcomes| == |jobs|
    requires forall j | 0 <= j < |jobs| ::
        Clean(jobs[j]) && outcomes[j] == Fetch(kind, jobs[j].database, jobs[j].script)
    ensures Gather(InOrder(outcomes), RowsOf) == Delivered(jobs)
  {
    if jobs != [] {
      var n := |jobs| - 1;
      SequentialRows(kind, jobs[..n], outcomes[..n]);
      assert InOrder(outcomes)[..n] == InOrder(outcomes[..n]);
      FetchAccountsForEveryRow(kind, jobs[n].database, jobs[n].script);
      assert RowsOf(InOrder(outcomes)[n]) == DeliveredBy(jobs[n]);
    }
  }

  lemma AggregateIsClean<R>(plans: seq<Plan<R>>, s: State<R>, r: nat)
    requires Inv(plans, s) && r < |plans| && s.rpcs[r].phase.Returned? && s.rpcs[r].phase.out.Aggregated?
    ensures forall j: nat | j < |plans[r].jobs| :: s.workers[Wid(r, j)].pc.Done?
    ensures forall j | 0 <= j < |plans[r].jobs| ::
      && Clean(plans[r].jobs[j])
      && SentOutcomes(plans, s, r)[j] == Fetch(plans[r].kind, plans[r].jobs[j].database, plans[r].jobs[j].script)
      && SentOutcomes(plans, s, r)[j].Rows?
  {
    ReturnedIsConcluded(plans, s, r);
    var outcomes := SentOutcomes(plans, s, r);
    AllOrNothing(s.rpcs[r].log, outcomes);
    forall j | 0 <= j < |plans[r].jobs|
      ensures Clean(plans[r].jobs[j]) && outcomes[j].Rows?
      ensures outcomes[j] == Fetch(plans[r].kind, plans[r].jobs[j].database, plans[r].jobs[j].script)
    {
      FailedExactly(plans, s, r, j);
      assert outcomes[j].Rows?;
      assert outcomes[j] == OutcomeOf(plans, Wid(r, j));
    }
  }

  /**
    In every run, a successful answer holds every row that every database of
    the plan delivered, exactly as often, each attributed to the database that
    delivered it, and nothing else.
   */
  lemma EveryRowAccountedFor<R>(plans: seq<Plan<R>>, run: seq<State<R>>, k: nat, r: nat)
    requires IsRun(plans, run) && k < |run| && r < |plans|
    requires |run[k].rpcs| == |plans| && run[k].rpcs[r].phase.Returned? && run[k].rpcs[r].phase.out.Aggregated?
    ensures forall j | 0 <= j < |plans[r].jobs| :: Clean(plans[r].jobs[j])
    ensures multiset(Attributed(run[k].rpcs[r].phase.out.items)) == multiset(Delivered(plans[r].jobs))
  {
    RunInv(plans, run, k);
    var s := run[k];
    ReturnedIsConcluded(plans, s, r);
    AggregateIsClean(plans, s, r);
    var outcomes := SentOutcomes(plans, s, r);
    var log := s.rpcs[r].log;
    InOrderIsComplete(outcomes);
    CompleteLogsArePermutations(log, InOrder(outcomes), outcomes);
    GatherPermuted(log, InOrder(outcomes), RowsOf);
    AttributedGather(log);
    SequentialRows(plans[r].kind, plans[r].jobs, outcomes);
  }

  /** Two runs that both answer an RPC successfully give it the same items, up to order. */
  lemma RunsOnlyReorder<R>(plans: seq<Plan<R>>, run1: seq<State<R>>, run2: seq<State<R>>, k1: nat, k2: nat, r: nat)
    requires IsRun(plans, run1) && IsRun(plans, run2) && k1 < |run1| && k2 < |run2| && r < |plans|
    requires |run1[k1].rpcs| == |plans| && run1[k1].rpcs[r].phase.Returned? && run1[k1].rpcs[r].phase.out.Aggregated?
    requires |run2[k2].rpcs| == |plans| && run2[k2].rpcs[r].phase.Returned? && run2[k2].rpcs[r].phase.out.Aggregated?
    ensures multiset(run1[k1].rpcs[r].phase.out.items) == multiset(run2[k2].rpcs[r].phase.out.items)
  {
    RunInv(plans, run1, k1);
    RunInv(plans, run2, k2);
    var s, t := run1[k1], run2[k2];
    ReturnedIsConcluded(plans, s, r);
    ReturnedIsConcluded(plans, t, r);
    AggregateIsClean(plans, s, r);
    AggregateIsClean(plans, t, r);
    assert SentOutcomes(plans, s, r) == SentOutcomes(plans, t, r);
    AnyTwoSchedulesArePermutations(s.rpcs[r].log, t.rpcs[r].log, SentOutcomes(plans, s, r));
  }

  /**
    In every run, a successful answer is the whole result of each worker, one
    contiguous block after another, the jobs in some order that is a
    permutation of the database list.
   */
  lemma AnswerIsWholeBlocks<R>(plans: seq<Plan<R>>, run: seq<State<R>>, k: nat, r: nat)
    returns (order: seq<nat>, cuts: seq<nat>)
    requires IsRun(plans, run) && k < |run| && r < |plans|
    requires |run[k].rpcs| == |plans| && run[k].rpcs[r].phase.Returned? && run[k].rpcs[r].phase.out.Aggregated?
    ensures |order| == |plans[r].jobs| && |cuts| == |order| + 1
    ensures forall j: nat :: j in order <==> j < |plans[r].jobs|
    ensures forall i | 0 <= i < |order| :: order[i] < |plans[r].jobs|
    ensures forall i, j | 0 <= i < j < |order| :: order[i] != order[j]
    ensures cuts[0] == 0 && cuts[|order|] == |run[k].rpcs[r].phase.out.items|
    ensures forall i | 0 <= i < |order| ::
      var job := plans[r].jobs[order[i]];
      Clean(job) && IsBlock(run[k].rpcs[r].phase.out.items, cuts, i,
          Finish(plans[r].kind, job.database, Values(job.script.rows)))
  {
    RunInv(plans, run, k);
    var s := run[k];
    ReturnedIsConcluded(plans, s, r);
    AggregateIsClean(plans, s, r);
    var outcomes := SentOutcomes(plans, s, r);
    order := JobsOf(s.rpcs[r].log);
    Pigeonhole(order, |outcomes|);
    cuts := WholeBlocks(s.rpcs[r].log, outcomes);
    var items := s.rpcs[r].phase.out.items;
    forall i | 0 <= i < |order|
      ensures
        var job := plans[r].jobs[order[i]];
        Clean(job) && IsBlock(items, cuts, i, Finish(plans[r].kind, job.database, Values(job.script.rows)))
    {
      assert IsBlock(items, cuts, i, outcomes[order[i]].items);
    }
  }
}
