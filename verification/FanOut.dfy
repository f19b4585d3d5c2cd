/**
  Fan-out and fan-in: one goroutine per database, one message each, a
  collector that receives exactly as many messages as there are databases.
 */
module FanOut {
  import opened Workers
  import opened Gathering

  /** A message on the results channel; `job` records which goroutine sent it. */
  datatype Message<+R> = Message(job: nat, res: Fetched<R>)

  datatype FanIn<+R> = Aggregated(items: seq<Item<R>>) | PartlyFailed(failed: nat, total: nat, errs: seq<Failure>)

  function ItemsOf<R>(m: Message<R>): seq<Item<R>> {
    if m.res.Rows? then m.res.items else []
  }

  function FailuresOf<R>(m: Message<R>): seq<Failure> {
    if m.res.Failed? then [m.res.why] else []
  }

  /** What the collector returns once it has received `log`. */
  function Conclude<R>(log: seq<Message<R>>, total: nat): FanIn<R> {
    var errs := Gather(log, FailuresOf);
    if |errs| > 0 then PartlyFailed(|errs|, total, errs) else Aggregated(Gather(log, ItemsOf))
  }

  ghost predicate Distinct<R>(log: seq<Message<R>>) {
    forall i, j | 0 <= i < j < |log| :: log[i].job != log[j].job
  }

  /** `log` holds one message from every job, carrying that job's outcome. */
  ghost predicate Complete<R>(log: seq<Message<R>>, outcomes: seq<Fetched<R>>) {
    && |log| == |outcomes|
    && Distinct(log)
    && forall k | 0 <= k < |log| :: log[k].job < |outcomes| && log[k].res == outcomes[log[k].job]
  }

  /** The arrival order of running the jobs one after another over the list. */
  function InOrder<R>(outcomes: seq<Fetched<R>>): (log: seq<Message<R>>)
    ensures |log| == |outcomes|
    ensures forall i | 0 <= i < |log| :: log[i] == Message(i, outcomes[i])
  {
    seq(|outcomes|, i requires 0 <= i < |outcomes| => Message(i, outcomes[i]))
  }

  /** Every job's message is somewhere in a complete log. */
  lemma EveryJobArrives<R>(log: seq<Message<R>>, outcomes: seq<Fetched<R>>, j: nat)
    requires Complete(log, outcomes) && j < |outcomes|
    ensures exists k :: 0 <= k < |log| && log[k] == Message(j, outcomes[j])
  {
    var jobs := seq(|log|, k requires 0 <= k < |log| => log[k].job);
    Pigeonhole(jobs, |outcomes|);
    assert j in jobs;
    var k :| 0 <= k < |jobs| && jobs[k] == j;
    assert log[k] == Message(j, outcomes[j]);
  }

  lemma {:induction false} OccursOnce<R>(log: seq<Message<R>>, k: nat)
    requires Distinct(log) && k < |log|
    ensures multiset(log)[log[k]] == 1
  {
    var before, after := log[..k], log[k + 1..];
    assert log == before + [log[k]] + after;
    assert log[k] !in before && log[k] !in after;
  }

  /** Any two complete logs of the same outcomes are permutations of each other. */
  lemma CompleteLogsArePermutations<R>(a: seq<Message<R>>, b: seq<Message<R>>, outcomes: seq<Fetched<R>>)
    requires Complete(a, outcomes) && Complete(b, outcomes)
    ensures multiset(a) == multiset(b)
  {
    forall m: Message<R> | m in a || m in b
      ensures multiset(a)[m] == multiset(b)[m]
    {
      assert m.job < |outcomes| && m.res == outcomes[m.job];
      EveryJobArrives(a, outcomes, m.job);
      EveryJobArrives(b, outcomes, m.job);
      var i :| 0 <= i < |a| && a[i] == m;
      var j :| 0 <= j < |b| && b[j] == m;
      OccursOnce(a, i);
      OccursOnce(b, j);
    }
    assert forall m: Message<R> :: m in multiset(a) <==> m in a;
    assert forall m: Message<R> :: m in multiset(b) <==> m in b;
    assert forall m: Message<R> :: multiset(a)[m] == multiset(b)[m];
  }

  lemma InOrderIsComplete<R>(outcomes: seq<Fetched<R>>)
    ensures Complete(InOrder(outcomes), outcomes)
  {
  }

  function FailedJobs<R>(outcomes: seq<Fetched<R>>): set<nat> {
    set j: nat | j < |outcomes| && outcomes[j].Failed?
  }

  /** The jobs that failed for this reason. */
  function FailedWith<R>(outcomes: seq<Fetched<R>>, why: Failure): set<nat> {
    set j: nat | j < |outcomes| && outcomes[j].Failed? && outcomes[j].why == why
  }

  lemma FailedWithOneMore<R>(init: seq<Fetched<R>>, last: Fetched<R>, why: Failure)
    ensures |FailedWith(init + [last], why)|
        == |FailedWith(init, why)| + if last.Failed? && last.why == why then 1 else 0
  {
    var n := |init|;
    var before, after := FailedWith(init, why), FailedWith(init + [last], why);
    forall j: nat
      ensures j in after <==> j in before || (j == n && last.Failed? && last.why == why)
    {
      if j < n {
        assert (init + [last])[j] == init[j];
      }
    }
    if last.Failed? && last.why == why {
      assert after == before + {n} && n !in before;
    } else {
      assert after == before;
    }
  }

  lemma {:induction false} ReasonsInOrder<R>(outcomes: seq<Fetched<R>>, why: Failure)
    ensures multiset(Gather(InOrder(outcomes), FailuresOf))[why] == |FailedWith(outcomes, why)|
  {
    if outcomes == [] {
      assert FailedWith(outcomes, why) == {};
    } else {
      var n := |outcomes| - 1;
      var init := outcomes[..n];
      ReasonsInOrder(init, why);
      assert InOrder(outcomes)[..n] == InOrder(init);
      assert outcomes == init + [outcomes[n]];
      FailedWithOneMore(init, outcomes[n], why);
    }
  }

  lemma {:induction false} FailuresInOrder<R>(outcomes: seq<Fetched<R>>)
    ensures |Gather(InOrder(outcomes), FailuresOf)| == |FailedJobs(outcomes)|
  {
    if outcomes == [] {
      assert FailedJobs(outcomes) == {};
    } else {
      var n := |outcomes| - 1;
      var init := outcomes[..n];
      FailuresInOrder(init);
      assert InOrder(outcomes)[..n] == InOrder(init);
      assert FailedJobs(outcomes) == FailedJobs(init) + if outcomes[n].Failed? then {n} else {};
    }
  }

  /**
    All or nothing: the aggregate is returned exactly when no worker failed;
    otherwise the reported count is the number of workers that failed, and each
    reason is reported once for every worker that failed for it.
   */
  lemma AllOrNothing<R>(log: seq<Message<R>>, outcomes: seq<Fetched<R>>)
    requires Complete(log, outcomes)
    ensures Conclude(log, |outcomes|).Aggregated? <==> forall j | 0 <= j < |outcomes| :: outcomes[j].Rows?
    ensures
      Conclude(log, |outcomes|).PartlyFailed? ==>
        && Conclude(log, |outcomes|).failed == |FailedJobs(outcomes)| == |Conclude(log, |outcomes|).errs| > 0
        && Conclude(log, |outcomes|).total == |outcomes|
        && forall why :: multiset(Conclude(log, |outcomes|).errs)[why] == |FailedWith(outcomes, why)|
  {
    InOrderIsComplete(outcomes);
    CompleteLogsArePermutations(log, InOrder(outcomes), outcomes);
    GatherPermuted(log, InOrder(outcomes), FailuresOf);
    var errs := Gather(log, FailuresOf);
    assert |errs| == |multiset(errs)| == |Gather(InOrder(outcomes), FailuresOf)|;
    FailuresInOrder(outcomes);
    forall why ensures multiset(errs)[why] == |FailedWith(outcomes, why)| {
      ReasonsInOrder(outcomes, why);
    }
    if j: nat :| j < |outcomes| && outcomes[j].Failed? {
      assert j in FailedJobs(outcomes);
    } else {
      assert FailedJobs(outcomes) == {};
    }
  }

  /** Any schedule gives the items of the sequential run, up to order. */
  lemma ScheduleOnlyReorders<R>(log: seq<Message<R>>, outcomes: seq<Fetched<R>>)
    requires Complete(log, outcomes)
    requires forall j | 0 <= j < |outcomes| :: outcomes[j].Rows?
    ensures Conclude(log, |outcomes|).Aggregated? && Conclude(InOrder(outcomes), |outcomes|).Aggregated?
    ensures multiset(Conclude(log, |outcomes|).items) == multiset(Conclude(InOrder(outcomes), |outcomes|).items)
  {
    AllOrNothing(log, outcomes);
    InOrderIsComplete(outcomes);
    AllOrNothing(InOrder(outcomes), outcomes);
    CompleteLogsArePermutations(log, InOrder(outcomes), outcomes);
    GatherPermuted(log, InOrder(outcomes), ItemsOf);
  }

  lemma AnyTwoSchedulesArePermutations<R>(a: seq<Message<R>>, b: seq<Message<R>>, outcomes: seq<Fetched<R>>)
    requires Complete(a, outcomes) && Complete(b, outcomes)
    requires forall j | 0 <= j < |outcomes| :: outcomes[j].Rows?
    ensures Conclude(a, |outcomes|).Aggregated? && Conclude(b, |outcomes|).Aggregated?
    ensures multiset(Conclude(a, |outcomes|).items) == multiset(Conclude(b, |outcomes|).items)
  {
    ScheduleOnlyReorders(a, outcomes);
    ScheduleOnlyReorders(b, outcomes);
  }

  /** The part of `items` between cut `k` and the next one is `block`. */
  ghost predicate IsBlock<R>(items: seq<Item<R>>, cuts: seq<nat>, k: nat, block: seq<Item<R>>)
    requires k + 1 < |cuts|
  {
    cuts[k] <= cuts[k + 1] <= |items| && items[cuts[k]..cuts[k + 1]] == block
  }

  /**
    A successful aggregate is made of one contiguous block per job, in arrival
    order: the blocks meet end to end, start at 0, end at the end, and the
    `k`-th one is the whole result of the `k`-th job to arrive, in row order.
   */
  lemma WholeBlocks<R>(log: seq<Message<R>>, outcomes: seq<Fetched<R>>) returns (cuts: seq<nat>)
    requires Complete(log, outcomes)
    requires forall j | 0 <= j < |outcomes| :: outcomes[j].Rows?
    ensures Conclude(log, |outcomes|).Aggregated?
    ensures
      var items := Conclude(log, |outcomes|).items;
      && |cuts| == |log| + 1 && cuts[0] == 0 && cuts[|log|] == |items|
      && forall k | 0 <= k < |log| :: IsBlock(items, cuts, k, outcomes[log[k].job].items)
  {
    AllOrNothing(log, outcomes);
    var items := Gather(log, ItemsOf);
    cuts := seq(|log| + 1, k requires 0 <= k < |log| + 1 => |Gather(log[..k], ItemsOf)|);
    assert log[..0] == [] && log[..|log|] == log;
    forall k | 0 <= k < |log|
      ensures IsBlock(items, cuts, k, outcomes[log[k].job].items)
    {
      GatherBlock(log, ItemsOf, k);
    }
  }

  // ---------- forEachDatabase ----------

  /** `all` has been sent so far and `running` is still to send. */
  ghost predicate InFlight<R>(fn: seq<Fetched<R>>, all: seq<Message<R>>, running: set<nat>) {
    && |all| + |running| == |fn|
    && Distinct(all)
    && (forall j | j in running :: j < |fn|)
    && (forall m | m in all :: m.job < |fn| && m.job !in running && m.res == fn[m.job])
  }

  lemma OneMoreSends<R>(fn: seq<Fetched<R>>, all: seq<Message<R>>, running: set<nat>, j: nat)
    requires InFlight(fn, all, running) && j in running
    ensures InFlight(fn, all + [Message(j, fn[j])], running - {j})
  {
    var more := all + [Message(j, fn[j])];
    forall i, k | 0 <= i < k < |more| ensures more[i].job != more[k].job {
      assert more[i] in all;
    }
  }

  /** An arbitrary scheduler lets running goroutines send, at least one when the buffer is empty. */
  method LetWorkersSend<R>(
    fn: seq<Fetched<R>>, buffered: seq<Message<R>>, pending: set<nat>, ghost log: seq<Message<R>>)
    returns (resultsCh: seq<Message<R>>, running: set<nat>)
    requires InFlight(fn, log + buffered, pending)
    ensures InFlight(fn, log + resultsCh, running)
    ensures resultsCh == [] ==> running == {}
    ensures |resultsCh| <= |fn|
    ensures buffered <= resultsCh && running <= pending
  {
    resultsCh, running := buffered, pending;
    var more := true;
    while running != {} && (resultsCh == [] || more)
      invariant InFlight(fn, log + resultsCh, running)
      invariant buffered <= resultsCh && running <= pending
      decreases |running|
    {
      assert |resultsCh| < |fn|;  // there is room: the channel was made with capacity |fn|
      var j :| j in running;
      OneMoreSends(fn, log + resultsCh, running, j);
      running := running - {j};
      assert log + (resultsCh + [Message(j, fn[j])]) == log + resultsCh + [Message(j, fn[j])];
      resultsCh := resultsCh + [Message(j, fn[j])];
      more := *;
    }
  }

  lemma OneMoreReceived<R>(fn: seq<Fetched<R>>, log: seq<Message<R>>, resultsCh: seq<Message<R>>, running: set<nat>)
    requires InFlight(fn, log + resultsCh, running) && resultsCh != []
    ensures InFlight(fn, log + [resultsCh[0]] + resultsCh[1..], running)
    ensures Gather(log + [resultsCh[0]], ItemsOf) == Gather(log, ItemsOf) + ItemsOf(resultsCh[0])
    ensures Gather(log + [resultsCh[0]], FailuresOf) == Gather(log, FailuresOf) + FailuresOf(resultsCh[0])
  {
    assert log + [resultsCh[0]] + resultsCh[1..] == log + resultsCh;
    assert (log + [resultsCh[0]])[..|log|] == log;
  }

  /**
    The fan-out and the fan-in loop; `fn[i]` is what the call for
    `databases[i]` returns, and `log` is the messages in order of arrival.
   */
  method ForEachDatabase<R>(databases: seq<string>, fn: seq<Fetched<R>>) returns (out: FanIn<R>, log: seq<Message<R>>)
    requires |fn| == |databases|
    ensures Complete(log, fn)
    ensures out == Conclude(log, |databases|)
  {
    var running: set<nat> := {};
    for i := 0 to |databases|
      invariant running == Below(i)
    {
      running := running + {i};
    }

    var resultsCh: seq<Message<R>> := [];
    var results: seq<Item<R>> := [];
    var errs: seq<Failure> := [];
    log := [];
    for k := 0 to |databases|
      invariant |log| == k && InFlight(fn, log + resultsCh, running)
      invariant results == Gather(log, ItemsOf) && errs == Gather(log, FailuresOf)
    {
      resultsCh, running := LetWorkersSend(fn, resultsCh, running, log);
      OneMoreReceived(fn, log, resultsCh, running);
      var res := resultsCh[0];
      resultsCh := resultsCh[1..];
      log := log + [res];
      match res.res
      case Failed(why) => errs := errs + [why];
      case Rows(items) => results := results + items;
    }
    AllReceived(fn, log, resultsCh, running);
    if |errs| > 0 {
      out := PartlyFailed(|errs|, |databases|, errs);
    } else {
      out := Aggregated(results);
    }
  }

  lemma AllReceived<R>(fn: seq<Fetched<R>>, log: seq<Message<R>>, resultsCh: seq<Message<R>>, running: set<nat>)
    requires InFlight(fn, log + resultsCh, running) && |log| == |fn|
    ensures Complete(log, fn)
  {
    assert log + resultsCh == log;
    assert forall k | 0 <= k < |log| :: log[k] in log;
  }
}
