/** What holds in every reachable state, and the lock table the coordinator implements. */
module Safety {
  import opened Wrappers
  import opened Coordinator
  import opened Workers
  import opened Gathering
  import opened FanOut
  import opened Machine
  import opened Invariant

  // ---------- mutual exclusion ----------

  predicate HoldsPermit<R>(x: Worker<R>) {
    x.token.Some?
  }

  lemma HolderKnowsItsChannel<R>(plans: seq<Plan<R>>, s: State<R>, w: Wid)
    requires Inv(plans, s) && w in s.workers && HoldsPermit(s.workers[w])
    ensures NameOf(plans, w) in s.coord.sems
    ensures s.workers[w].token == Some(s.coord.sems[NameOf(plans, w)])
    ensures s.coord.sems[NameOf(plans, w)] < |s.coord.slots|
  {
    assert WorkerInv(plans[w.rpc].kind, JobOf(plans, w), s.coord, s.workers[w]);
  }

  /** At most one worker, over all RPCs and all listings, holds the permit of a database. */
  lemma OnePermitPerDatabase<R>(plans: seq<Plan<R>>, s: State<R>, v: Wid, w: Wid)
    requires Inv(plans, s) && v in s.workers && w in s.workers
    requires HoldsPermit(s.workers[v]) && HoldsPermit(s.workers[w])
    requires NameOf(plans, v) == NameOf(plans, w)
    ensures v == w
  {
    HolderKnowsItsChannel(plans, s, v);
    HolderKnowsItsChannel(plans, s, w);
    var c := s.coord.sems[NameOf(plans, v)];
    assert {v, w} <= Holders(s, c);
    SubsetSize({v, w}, Holders(s, c));
  }

  /** At most one coordinator-guarded pool is open per database, in every state of every run. */
  lemma OnePoolPerDatabase<R>(plans: seq<Plan<R>>, run: seq<State<R>>, k: nat, v: Wid, w: Wid)
    requires IsRun(plans, run) && k < |run| && v in run[k].workers && w in run[k].workers
    requires run[k].workers[v].poolOpen && run[k].workers[w].poolOpen
    requires IsWid(plans, v) && IsWid(plans, w) && NameOf(plans, v) == NameOf(plans, w)
    ensures v == w
  {
    RunInv(plans, run, k);
    assert WorkerInv(plans[v.rpc].kind, JobOf(plans, v), run[k].coord, run[k].workers[v]);
    assert WorkerInv(plans[w.rpc].kind, JobOf(plans, w), run[k].coord, run[k].workers[w]);
    OnePermitPerDatabase(plans, run[k], v, w);
  }

  /** A worker's pool is open while it queries and reads, and the worker holds its permit all that time. */
  lemma PoolOpenInsidePermit<R>(plans: seq<Plan<R>>, run: seq<State<R>>, k: nat, w: Wid)
    requires IsRun(plans, run) && k < |run| && w in run[k].workers
    ensures
      run[k].workers[w].poolOpen <==>
        || run[k].workers[w].pc.Query? || run[k].workers[w].pc.Reading?
        || (run[k].workers[w].pc.Returning? && ClosePool in run[k].workers[w].defers)
    ensures run[k].workers[w].poolOpen ==> run[k].workers[w].token.Some?
  {
    RunInv(plans, run, k);
    var x := run[k].workers[w];
    assert WorkerInv(plans[w.rpc].kind, JobOf(plans, w), run[k].coord, x);
    if x.pc.Returning? && x.defers != [] {
      assert x.defers[0] == FULL_STACK[0];
      if |x.defers| >= 2 {
        assert x.defers[1] == FULL_STACK[1];
      }
    }
  }

  /**
    Token conservation: a channel holds as many tokens as there are workers
    between a send on it and their drain, and never more than one.  So the
    receive in `Release` finds a token, and it is the worker's own.
   */
  lemma TokensConserved<R>(plans: seq<Plan<R>>, run: seq<State<R>>, k: nat)
    requires IsRun(plans, run) && k < |run|
    ensures forall c | 0 <= c < |run[k].coord.slots| ::
      run[k].coord.slots[c] == |Holders(run[k], c)| && run[k].coord.slots[c] <= 1
    ensures forall w | w in run[k].workers && run[k].workers[w].pc.Drain? ::
      && run[k].workers[w].pc.ref.Some? && run[k].workers[w].pc.ref == run[k].workers[w].token
      && run[k].coord.CanDrain(run[k].workers[w].pc.ref.value)
  {
    RunInv(plans, run, k);
    var s := run[k];
    forall w | w in s.workers && s.workers[w].pc.Drain?
      ensures s.workers[w].pc.ref.Some? && s.workers[w].pc.ref == s.workers[w].token
      ensures s.coord.CanDrain(s.workers[w].pc.ref.value)
    {
      DrainReady(plans, s, w);
    }
  }

  lemma DrainReady<R>(plans: seq<Plan<R>>, s: State<R>, w: Wid)
    requires Inv(plans, s) && w in s.workers && s.workers[w].pc.Drain?
    ensures s.workers[w].pc.ref.Some? && s.workers[w].pc.ref == s.workers[w].token
    ensures s.coord.CanDrain(s.workers[w].pc.ref.value)
  {
    assert WorkerInv(plans[w.rpc].kind, JobOf(plans, w), s.coord, s.workers[w]);
    HolderKnowsItsChannel(plans, s, w);
    var c := s.workers[w].pc.ref.value;
    assert w in Holders(s, c);
    assert |Holders(s, c)| > 0;
  }

  // ---------- channels are never replaced ----------

  ghost predicate OnlyGrows(c: Coord, e: Coord) {
    && |c.slots| <= |e.slots|
    && forall d | d in c.sems :: d in e.sems && e.sems[d] == c.sems[d]
  }

  lemma StepGrows<R>(plans: seq<Plan<R>>, s: State<R>, t: State<R>)
    requires Next(plans, s, t)
    ensures OnlyGrows(s.coord, t.coord)
  {
  }

  /** A channel reference a worker holds is the map's entry for its database. */
  lemma ReferencesAreCurrent<R>(plans: seq<Plan<R>>, s: State<R>, w: Wid)
    requires Inv(plans, s) && IsWid(plans, w) && HasReference(s.workers[w].pc)
    ensures s.coord.Lookup(NameOf(plans, w)) == s.workers[w].pc.ref
  {
    assert WorkerInv(plans[w.rpc].kind, JobOf(plans, w), s.coord, s.workers[w]);
  }

  lemma {:induction false} MapOnlyGrows<R>(plans: seq<Plan<R>>, run: seq<State<R>>, i: nat, k: nat)
    requires IsRun(plans, run) && i <= k < |run|
    ensures OnlyGrows(run[i].coord, run[k].coord)
    decreases k - i
  {
    if i < k {
      MapOnlyGrows(plans, run, i, k - 1);
      assert Next(plans, run[k - 1], run[k - 1 + 1]);
      StepGrows(plans, run[k - 1], run[k]);
    }
  }

  /**
    Between any two states of a run the map only gains entries, so a channel
    read under the lock is still the map's entry for that name at the send, at
    the second lookup in `Release`, and at the drain.
   */
  lemma ChannelsAreStable<R>(plans: seq<Plan<R>>, run: seq<State<R>>, i: nat, k: nat)
    requires IsRun(plans, run) && i <= k < |run|
    ensures OnlyGrows(run[i].coord, run[k].coord)
    ensures forall w | w in run[k].workers && IsWid(plans, w) && HasReference(run[k].workers[w].pc) ::
      run[k].coord.Lookup(NameOf(plans, w)) == run[k].workers[w].pc.ref
  {
    RunInv(plans, run, k);
    MapOnlyGrows(plans, run, i, k);
    forall w | w in run[k].workers && IsWid(plans, w) && HasReference(run[k].workers[w].pc)
      ensures run[k].coord.Lookup(NameOf(plans, w)) == run[k].workers[w].pc.ref
    {
      ReferencesAreCurrent(plans, run[k], w);
    }
  }

  predicate HasReference<R>(pc: Pc<R>) {
    pc.AcquireUnlock? || pc.Select? || pc.ReleaseUnlock? || pc.Drain?
  }

  // ---------- the lock table ----------

  /** The abstract object: who, if anyone, owns each database. */
  type LockTable = map<string, Wid>

  datatype TableStep = Stutter | Take(d: string, w: Wid) | Free(d: string, w: Wid)

  ghost predicate TableNext(before: LockTable, step: TableStep, after: LockTable) {
    match step
    case Stutter => after == before
    case Take(d, w) => d !in before && after == before[d := w]
    case Free(d, w) => d in before && before[d] == w && after == before - {d}
  }

  ghost predicate IsOwner<R>(plans: seq<Plan<R>>, s: State<R>, d: string, w: Wid)
    requires Shaped(plans, s)
  {
    w in s.workers && HoldsPermit(s.workers[w]) && NameOf(plans, w) == d
  }

  /** The table a state stands for: the owner of a name is the worker holding its permit. */
  ghost predicate Represents<R>(plans: seq<Plan<R>>, s: State<R>, table: LockTable)
    requires Shaped(plans, s)
  {
    forall d, w :: (d in table && table[d] == w) <==> IsOwner(plans, s, d, w)
  }

  /** Which table step a machine step is: a send takes, a drain frees, nothing else is visible. */
  function Visible<R>(plans: seq<Plan<R>>, s: State<R>, a: Action): TableStep
    requires |s.rpcs| == |plans| && Enabled(plans, s, a)
  {
    if a.Move? && s.workers[a.w].pc.Select? then Take(NameOf(plans, a.w), a.w)
    else if a.Move? && s.workers[a.w].pc.Drain? then Free(NameOf(plans, a.w), a.w)
    else Stutter
  }

  function TableAfter(table: LockTable, step: TableStep): LockTable {
    match step
    case Stutter => table
    case Take(d, w) => table[d := w]
    case Free(d, _) => table - {d}
  }

  /** A name whose channel accepts a send has no owner. */
  lemma FreeWhenSendable<R>(plans: seq<Plan<R>>, s: State<R>, w: Wid, v: Wid)
    requires Inv(plans, s) && w in s.workers && s.workers[w].pc.Select? && s.coord.CanSend(s.workers[w].pc.ref)
    requires v in s.workers && HoldsPermit(s.workers[v])
    ensures NameOf(plans, v) != NameOf(plans, w)
  {
    assert WorkerInv(plans[w.rpc].kind, JobOf(plans, w), s.coord, s.workers[w]);
    OwnedChannelIsFull(plans, s, v);
  }

  lemma OwnedChannelIsFull<R>(plans: seq<Plan<R>>, s: State<R>, v: Wid)
    requires Inv(plans, s) && v in s.workers && HoldsPermit(s.workers[v])
    ensures NameOf(plans, v) in s.coord.sems
    ensures !s.coord.CanSend(Some(s.coord.sems[NameOf(plans, v)]))
  {
    HolderKnowsItsChannel(plans, s, v);
    var c := s.coord.sems[NameOf(plans, v)];
    assert v in Holders(s, c);
    assert |Holders(s, c)| > 0;
  }

  lemma PermitAfter<R>(plans: seq<Plan<R>>, s: State<R>, a: Action, v: Wid)
    requires Inv(plans, s) && Enabled(plans, s, a) && v in s.workers
    ensures v in Apply(plans, s, a).workers
    ensures HoldsPermit(Apply(plans, s, a).workers[v]) <==>
      match Visible(plans, s, a)
      case Stutter => HoldsPermit(s.workers[v])
      case Take(_, w) => v == w || HoldsPermit(s.workers[v])
      case Free(_, w) => v != w && HoldsPermit(s.workers[v])
  {
    if a.Move? && a.w == v {
      TokenStep(plans[v.rpc].kind, JobOf(plans, v), s.coord, s.workers[v]);
    }
  }

  /** Every machine step is the table step `Visible` says, so the machine refines the lock table. */
  lemma StepRefines<R>(plans: seq<Plan<R>>, s: State<R>, a: Action, table: LockTable)
    requires Inv(plans, s) && Enabled(plans, s, a) && Represents(plans, s, table)
    ensures Shaped(plans, Apply(plans, s, a))
    ensures TableNext(table, Visible(plans, s, a), TableAfter(table, Visible(plans, s, a)))
    ensures Represents(plans, Apply(plans, s, a), TableAfter(table, Visible(plans, s, a)))
  {
    StepKeepsInv(plans, s, a);
    var t := Apply(plans, s, a);
    var step := Visible(plans, s, a);
    var after := TableAfter(table, step);
    if step.Take? {
      if step.d in table {
        assert IsOwner(plans, s, step.d, table[step.d]);
        FreeWhenSendable(plans, s, a.w, table[step.d]);
      }
    } else if step.Free? {
      DrainReady(plans, s, a.w);
      assert IsOwner(plans, s, step.d, step.w);
    }
    forall d, w ensures (d in after && after[d] == w) <==> IsOwner(plans, t, d, w) {
      OwnerAfter(plans, s, a, table, d, w);
    }
  }

  lemma OwnerAfter<R>(plans: seq<Plan<R>>, s: State<R>, a: Action, table: LockTable, d: string, w: Wid)
    requires Inv(plans, s) && Enabled(plans, s, a) && Represents(plans, s, table)
    requires Shaped(plans, Apply(plans, s, a))
    requires Visible(plans, s, a).Take? ==> Visible(plans, s, a).d !in table
    requires Visible(plans, s, a).Free?
        ==> Visible(plans, s, a).d in table && table[Visible(plans, s, a).d] == Visible(plans, s, a).w
    ensures
      var after := TableAfter(table, Visible(plans, s, a));
      (d in after && after[d] == w) <==> IsOwner(plans, Apply(plans, s, a), d, w)
  {
    assert (d in table && table[d] == w) <==> IsOwner(plans, s, d, w);
    if w in s.workers {
      PermitAfter(plans, s, a, w);
    }
  }

  /** A run of the lock table: it starts empty and follows the visible steps. */
  ghost predicate IsTableRun(tables: seq<LockTable>, steps: seq<TableStep>) {
    && |tables| == |steps| + 1 && tables[0] == map[]
    && forall k | 0 <= k < |steps| :: TableNext(tables[k], steps[k], tables[k + 1])
  }

  lemma TableRunExtends(tables: seq<LockTable>, steps: seq<TableStep>, step: TableStep, after: LockTable)
    requires IsTableRun(tables, steps) && TableNext(tables[|steps|], step, after)
    ensures IsTableRun(tables + [after], steps + [step])
  {
  }

  ghost predicate RepresentsAll<R>(plans: seq<Plan<R>>, run: seq<State<R>>, tables: seq<LockTable>) {
    && |tables| == |run|
    && forall k | 0 <= k < |run| :: Shaped(plans, run[k]) && Represents(plans, run[k], tables[k])
  }

  lemma RepresentsAllExtends<R>(plans: seq<Plan<R>>, run: seq<State<R>>, tables: seq<LockTable>, after: LockTable)
    requires |run| > 0 && RepresentsAll(plans, run[..|run| - 1], tables)
    requires Shaped(plans, run[|run| - 1]) && Represents(plans, run[|run| - 1], after)
    ensures RepresentsAll(plans, run, tables + [after])
  {
  }

  /** Every run of the machine is, state by state, a run of the abstract lock table. */
  lemma {:induction false} RunRefines<R>(plans: seq<Plan<R>>, run: seq<State<R>>)
    returns (tables: seq<LockTable>, steps: seq<TableStep>)
    requires IsRun(plans, run)
    ensures IsTableRun(tables, steps) && RepresentsAll(plans, run, tables)
    decreases |run|
  {
    if |run| == 1 {
      tables, steps := [map[]], [];
    } else {
      var before, a := LastStep(plans, run);
      var tables0, steps0 := RunRefines(plans, before);
      var last := tables0[|steps0|];
      assert Represents(plans, before[|before| - 1], last);
      var step := Visible(plans, run[|run| - 2], a);
      var after := TableAfter(last, step);
      StepRefines(plans, run[|run| - 2], a, last);
      TableRunExtends(tables0, steps0, step, after);
      RepresentsAllExtends(plans, run, tables0, after);
      tables, steps := tables0 + [after], steps0 + [step];
    }
  }

  // ---------- cancellation ----------

  predicate SendStep<R>(x: Worker<R>, y: Worker<R>) {
    x.pc.Select? && y.pc.Connect?
  }

  predicate DrainStep<R>(x: Worker<R>, y: Worker<R>) {
    x.pc.Drain? && x.pc.ref.Some? && y.pc.Returning?
  }

  /** How many times worker `w` put a token into a channel during the run. */
  ghost function SendsIn<R>(run: seq<State<R>>, w: Wid): nat
    requires forall k | 0 <= k < |run| :: w in run[k].workers
  {
    if |run| < 2 then 0
    else
      var last := if SendStep(run[|run| - 2].workers[w], run[|run| - 1].workers[w]) then 1 else 0;
      SendsIn(run[..|run| - 1], w) + last
  }

  /** How many times worker `w` took a token out of a channel during the run. */
  ghost function DrainsIn<R>(run: seq<State<R>>, w: Wid): nat
    requires forall k | 0 <= k < |run| :: w in run[k].workers
  {
    if |run| < 2 then 0
    else
      var last := if DrainStep(run[|run| - 2].workers[w], run[|run| - 1].workers[w]) then 1 else 0;
      DrainsIn(run[..|run| - 1], w) + last
  }

  lemma CountersStep<R>(kind: Kind, job: Job<R>, c: Coord, x: Worker<R>)
    ensures StepWorker(kind, job, c, x).takes == x.takes + if SendStep(x, StepWorker(kind, job, c, x)) then 1 else 0
    ensures StepWorker(kind, job, c, x).frees == x.frees + if DrainStep(x, StepWorker(kind, job, c, x)) then 1 else 0
  {
  }

  lemma CountStep<R>(plans: seq<Plan<R>>, s: State<R>, a: Action, w: Wid)
    requires Shaped(plans, s) && Enabled(plans, s, a) && w in s.workers
    ensures
      var t := Apply(plans, s, a);
      && w in t.workers
      && t.workers[w].takes == s.workers[w].takes + (if SendStep(s.workers[w], t.workers[w]) then 1 else 0)
      && t.workers[w].frees == s.workers[w].frees + (if DrainStep(s.workers[w], t.workers[w]) then 1 else 0)
  {
    if a == Move(w) {
      CountersStep(plans[w.rpc].kind, JobOf(plans, w), s.coord, s.workers[w]);
    }
  }

  lemma PresentThroughout<R>(plans: seq<Plan<R>>, run: seq<State<R>>, w: Wid)
    requires IsRun(plans, run) && IsWid(plans, w)
    ensures forall k | 0 <= k < |run| :: w in run[k].workers
  {
    forall k | 0 <= k < |run| ensures w in run[k].workers {
      RunInv(plans, run, k);
    }
  }

  /** The history counters of a worker are the counts of its sends and drains along the run. */
  lemma {:induction false} CountersCount<R>(plans: seq<Plan<R>>, run: seq<State<R>>, w: Wid)
    requires IsRun(plans, run) && IsWid(plans, w)
    ensures forall k | 0 <= k < |run| :: w in run[k].workers
    ensures SendsIn(run, w) == run[|run| - 1].workers[w].takes
    ensures DrainsIn(run, w) == run[|run| - 1].workers[w].frees
    decreases |run|
  {
    PresentThroughout(plans, run, w);
    if |run| > 1 {
      var before, a := LastStep(plans, run);
      CountersCount(plans, before, w);
      CountStep(plans, run[|run| - 2], a, w);
      CountsUnfold(run, w);
    }
  }

  lemma CountsUnfold<R>(run: seq<State<R>>, w: Wid)
    requires |run| > 1 && forall k | 0 <= k < |run| :: w in run[k].workers
    ensures SendsIn(run, w) ==
      SendsIn(run[..|run| - 1], w) + if SendStep(run[|run| - 2].workers[w], run[|run| - 1].workers[w]) then 1 else 0
    ensures DrainsIn(run, w) ==
      DrainsIn(run[..|run| - 1], w) + if DrainStep(run[|run| - 2].workers[w], run[|run| - 1].workers[w]) then 1 else 0
  {
  }

  /**
    Cancellation leaves no trace on permits.  Once a worker has sent its
    result, it was refused exactly when it never put a token anywhere, and then
    it took none out either; otherwise it put in one token and took out one,
    whatever it failed at afterwards.
   */
  lemma PermitsBalance<R>(plans: seq<Plan<R>>, run: seq<State<R>>, w: Wid)
    requires IsRun(plans, run) && IsWid(plans, w)
    ensures forall k | 0 <= k < |run| :: w in run[k].workers
    ensures DrainsIn(run, w) <= SendsIn(run, w) <= 1
    ensures
      run[|run| - 1].workers[w].pc.Done? ==>
        && SendsIn(run, w) == DrainsIn(run, w)
        && (SendsIn(run, w) == 0 <==> run[|run| - 1].workers[w].pc.res == Failed(AcquireFailed))
        && (SendsIn(run, w) == 1 ==> run[|run| - 1].workers[w].pc.res == OutcomeOf(plans, w))
  {
    CountersCount(plans, run, w);
    RunInv(plans, run, |run| - 1);
    CountersBalance(plans, run[|run| - 1], w);
  }

  lemma CountersBalance<R>(plans: seq<Plan<R>>, s: State<R>, w: Wid)
    requires Inv(plans, s) && IsWid(plans, w)
    ensures s.workers[w].frees <= s.workers[w].takes <= 1
    ensures
      s.workers[w].pc.Done? ==>
        && s.workers[w].takes == s.workers[w].frees
        && (s.workers[w].takes == 0 <==> s.workers[w].pc.res == Failed(AcquireFailed))
        && (s.workers[w].takes == 1 ==> s.workers[w].pc.res == OutcomeOf(plans, w))
  {
    assert WorkerInv(plans[w.rpc].kind, JobOf(plans, w), s.coord, s.workers[w]);
  }

  // ---------- the results channel ----------

  ghost function SentJobs<R>(plans: seq<Plan<R>>, s: State<R>, r: nat): set<nat>
    requires Shaped(plans, s) && r < |plans|
  {
    set j | j in Below(|plans[r].jobs|) && s.workers[Wid(r, j)].pc.Done?
  }

  function JobsOf<R>(log: seq<Message<R>>): (jobs: seq<nat>)
    ensures |jobs| == |log|
    ensures forall k | 0 <= k < |log| :: jobs[k] == log[k].job
  {
    seq(|log|, k requires 0 <= k < |log| => log[k].job)
  }

  /**
    Buffered messages are sent minus received, and there is room for every
    message still to come, so no worker blocks on its result.  When the
    collector returns, every worker has sent and the buffer is empty.
   */
  lemma ResultsAccounted<R>(plans: seq<Plan<R>>, s: State<R>, r: nat)
    requires Inv(plans, s) && r < |plans|
    ensures |s.rpcs[r].buffer| == |SentJobs(plans, s, r)| - |s.rpcs[r].log|
    ensures |SentJobs(plans, s, r)| <= |plans[r].jobs|
    ensures (exists j: nat :: j < |plans[r].jobs| && !s.workers[Wid(r, j)].pc.Done?)
        ==> |SentJobs(plans, s, r)| < |plans[r].jobs|
    ensures s.rpcs[r].phase.Returned? ==> s.rpcs[r].buffer == [] && forall j: nat | j < |plans[r].jobs| ::
        s.workers[Wid(r, j)].pc.Done?
  {
    var c := s.rpcs[r];
    var n := |plans[r].jobs|;
    assert RpcInv(plans, s, r);
    var jobs := JobsOf(Sent(c));
    forall j: nat ensures j in Elements(jobs) <==> j in SentJobs(plans, s, r) {
      JobSentIffArrived(plans, s, r, j);
    }
    DistinctSize(jobs);
    assert Elements(jobs) == SentJobs(plans, s, r);
    SubsetSize(SentJobs(plans, s, r), Below(n));
    if |SentJobs(plans, s, r)| == n {
      forall j: nat | j < n ensures s.workers[Wid(r, j)].pc.Done? {
        assert j in Below(n);
      }
    }
  }

  lemma JobSentIffArrived<R>(plans: seq<Plan<R>>, s: State<R>, r: nat, j: nat)
    requires Shaped(plans, s) && r < |plans| && MessagesInv(plans, s, r)
    ensures j in JobsOf(Sent(s.rpcs[r])) <==> j in SentJobs(plans, s, r)
  {
    var sent := Sent(s.rpcs[r]);
    var jobs := JobsOf(sent);
    if j in jobs {
      var k :| 0 <= k < |jobs| && jobs[k] == j;
      assert sent[k] in sent;
    }
    if j in SentJobs(plans, s, r) {
      assert HasArrived(s.rpcs[r], j);
      var k :| 0 <= k < |sent| && sent[k].job == j;
      assert jobs[k] == j;
    }
  }
}
