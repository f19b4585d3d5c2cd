/**
  The invariant of the machine, and the proof that every step keeps it.

  It is split by what it talks about: each worker's own fields against the map
  (`WorkerInv`), the mutex, the tokens, and each RPC's messages (`RpcInv`).
 */
module Invariant {
  import opened Wrappers
  import opened Coordinator
  import opened Workers
  import opened Gathering
  import opened FanOut
  import opened Machine

  // ---------- one worker ----------

  ghost predicate Idle<R>(x: Worker<R>) {
    x.defers == [] && !x.poolOpen && x.token == None && x.takes == x.frees
  }

  /** The worker holds exactly one permit: the one for its own database. */
  ghost predicate Holds<R>(c: Coord, d: string, x: Worker<R>) {
    && d in c.sems && x.token == Some(c.sems[d]) && x.takes == 1 && x.frees == 0
  }

  /** A finished fetch: refused at the select without ever holding a token, or granted and completed. */
  ghost predicate Settled<R>(outcome: Fetched<R>, x: Worker<R>, res: Fetched<R>) {
    || (x.takes == 0 && res == Failed(AcquireFailed))
    || (x.takes == 1 && res == outcome)
  }

  ghost predicate Resolved(c: Coord, d: string, ref: Option<nat>) {
    d in c.sems && ref == Some(c.sems[d])
  }

  ghost predicate WorkerInv<R>(kind: Kind, job: Job<R>, c: Coord, x: Worker<R>) {
    var d := job.database;
    var outcome := Fetch(kind, d, job.script);
    match x.pc
    case NotSpawned => Idle(x) && x.takes == 0
    case AcquireLock => Idle(x) && x.takes == 0
    case AcquireCheck => Idle(x) && x.takes == 0
    case AcquireRead => Idle(x) && x.takes == 0 && d in c.sems
    case AcquireUnlock(ref) => Idle(x) && x.takes == 0 && Resolved(c, d, ref)
    case Select(ref) => Idle(x) && x.takes == 0 && Resolved(c, d, ref)
    case Connect => Holds(c, d, x) && x.defers == FULL_STACK[..1] && !x.poolOpen
    case Query => Holds(c, d, x) && x.defers == FULL_STACK[..2] && x.poolOpen && !job.script.NoConnection?
    case Reading(next, acc) =>
      && Holds(c, d, x) && x.defers == FULL_STACK && x.poolOpen
      && job.script.Delivers? && next <= |job.script.rows|
      && (forall i | 0 <= i < next :: job.script.rows[i].Good?)
      && acc == Values(job.script.rows[..next])
    case Returning(res) =>
      if x.defers == [] then Idle(x) && Settled(outcome, x, res)
      else
        && Holds(c, d, x) && res == outcome
        && x.defers <= FULL_STACK && (x.poolOpen <==> |x.defers| >= 2)
    case ReleaseLock(res) => Holds(c, d, x) && x.defers == [] && !x.poolOpen && res == outcome
    case ReleaseRead(res) => Holds(c, d, x) && x.defers == [] && !x.poolOpen && res == outcome
    case ReleaseUnlock(res, ref) =>
        Holds(c, d, x) && x.defers == [] && !x.poolOpen && res == outcome && Resolved(c, d, ref)
    case Drain(res, ref) => Holds(c, d, x) && x.defers == [] && !x.poolOpen && res == outcome && Resolved(c, d, ref)
    case Done(res) => Idle(x) && Settled(outcome, x, res)
  }

  ghost predicate WorkersInv<R>(plans: seq<Plan<R>>, s: State<R>)
    requires Shaped(plans, s)
  {
    forall w | w in s.workers :: WorkerInv(plans[w.rpc].kind, JobOf(plans, w), s.coord, s.workers[w])
  }

  // ---------- the mutex ----------

  predicate InCritical<R>(x: Worker<R>) {
    x.pc.AcquireCheck? || x.pc.AcquireRead? || x.pc.AcquireUnlock? || x.pc.ReleaseRead? || x.pc.ReleaseUnlock?
  }

  ghost predicate MutexInv<R>(s: State<R>) {
    && (forall w | w in s.workers :: InCritical(s.workers[w]) <==> s.mu == Some(w))
    && (s.mu.Some? ==> s.mu.value in s.workers)
  }

  // ---------- the tokens ----------

  /** The workers between a successful send on channel `c` and their drain of it. */
  ghost function Holders<R>(s: State<R>, c: nat): set<Wid> {
    set w | w in s.workers && s.workers[w].token == Some(c)
  }

  ghost predicate TokensInv<R>(s: State<R>) {
    && s.coord.WellFormed()
    && (forall c | 0 <= c < |s.coord.slots| :: s.coord.slots[c] == |Holders(s, c)| && s.coord.slots[c] <= CAPACITY)
  }

  // ---------- one RPC ----------

  /** Everything ever sent to RPC `r`'s collector, received part first. */
  ghost function Sent<R>(c: Rpc<R>): seq<Message<R>> {
    c.log + c.buffer
  }

  ghost predicate HasArrived<R>(c: Rpc<R>, j: nat) {
    exists k :: 0 <= k < |Sent(c)| && Sent(c)[k].job == j
  }

  ghost predicate PhaseInv<R>(n: nat, c: Rpc<R>) {
    match c.phase
    case Spawning(next) => next <= n && c.log == []
    case Collecting => true
    case Returned(out) => |c.log| == n && out == Conclude(c.log, n)
  }

  ghost predicate SpawnedInv<R>(plans: seq<Plan<R>>, s: State<R>, r: nat)
    requires Shaped(plans, s) && r < |plans|
  {
    forall j: nat | j < |plans[r].jobs| ::
      s.workers[Wid(r, j)].pc.NotSpawned? <==> s.rpcs[r].phase.Spawning? && j >= s.rpcs[r].phase.next
  }

  ghost predicate MessagesInv<R>(plans: seq<Plan<R>>, s: State<R>, r: nat)
    requires Shaped(plans, s) && r < |plans|
  {
    && Distinct(Sent(s.rpcs[r]))
    && (forall m | m in Sent(s.rpcs[r]) :: m.job < |plans[r].jobs| && s.workers[Wid(r, m.job)].pc == Done(m.res))
    && (forall j: nat | j < |plans[r].jobs| && s.workers[Wid(r, j)].pc.Done? :: HasArrived(s.rpcs[r], j))
  }

  ghost predicate RpcInv<R>(plans: seq<Plan<R>>, s: State<R>, r: nat)
    requires Shaped(plans, s) && r < |plans|
  {
    && PhaseInv(|plans[r].jobs|, s.rpcs[r])
    && s.rpcs[r].results == Gather(s.rpcs[r].log, ItemsOf)
    && s.rpcs[r].errs == Gather(s.rpcs[r].log, FailuresOf)
    && SpawnedInv(plans, s, r)
    && MessagesInv(plans, s, r)
  }

  ghost predicate Inv<R>(plans: seq<Plan<R>>, s: State<R>) {
    && Shaped(plans, s)
    && WorkersInv(plans, s)
    && MutexInv(s)
    && TokensInv(s)
    && forall r | 0 <= r < |plans| :: RpcInv(plans, s, r)
  }

  lemma InitInv<R>(plans: seq<Plan<R>>, s: State<R>)
    requires IsInit(plans, s)
    ensures Inv(plans, s)
  {
  }

  // ---------- workers ----------

  /** What a worker knows about the map stays true while the map only grows. */
  lemma WorkerInvGrows<R>(kind: Kind, job: Job<R>, c: Coord, x: Worker<R>, d: string)
    requires WorkerInv(kind, job, c, x)
    ensures WorkerInv(kind, job, c.Intern(d), x)
  {
  }

  lemma ReadingKept<R>(kind: Kind, job: Job<R>, c: Coord, x: Worker<R>)
    requires WorkerInv(kind, job, c, x) && x.pc.Reading?
    ensures WorkerInv(kind, job, c, StepReading(kind, job, x, x.pc.next, x.pc.acc))
  {
    var rows, next := job.script.rows, x.pc.next;
    if next < |rows| {
      if rows[next].Good? {
        assert Values(rows[..next + 1]) == Values(rows[..next]) + [rows[next].row];
      }
    } else {
      assert rows[..next] == rows;
    }
  }

  lemma ReturningKept<R>(kind: Kind, job: Job<R>, c: Coord, x: Worker<R>)
    requires WorkerInv(kind, job, c, x) && x.pc.Returning?
    ensures WorkerInv(kind, job, c, StepReturning(x, x.pc.res))
  {
    if x.defers != [] {
      assert x.defers[|x.defers| - 1] == FULL_STACK[|x.defers| - 1];
    }
  }

  lemma MovedWorkerKept<R>(kind: Kind, job: Job<R>, c: Coord, x: Worker<R>)
    requires WorkerInv(kind, job, c, x)
    requires x.pc.Select? ==> c.CanSend(x.pc.ref)
    requires x.pc.Drain? && x.pc.ref.Some? ==> c.CanDrain(x.pc.ref.value)
    ensures WorkerInv(kind, job, StepCoord(job.database, c, x), StepWorker(kind, job, c, x))
  {
    if x.pc.Reading? {
      ReadingKept(kind, job, c, x);
    } else if x.pc.Returning? {
      ReturningKept(kind, job, c, x);
    }
  }

  /** The step of a worker leaves every other worker's knowledge of the map true. */
  lemma OtherWorkerKept<R>(kind: Kind, job: Job<R>, d: string, c: Coord, mover: Worker<R>, x: Worker<R>)
    requires WorkerInv(kind, job, c, x)
    ensures WorkerInv(kind, job, StepCoord(d, c, mover), x)
  {
    if mover.pc.AcquireCheck? {
      WorkerInvGrows(kind, job, c, x, d);
    } else {
      assert StepCoord(d, c, mover).sems == c.sems;
    }
  }

  lemma WorkersKeptByMove<R>(plans: seq<Plan<R>>, s: State<R>, w: Wid)
    requires Shaped(plans, s) && WorkersInv(plans, s) && Enabled(plans, s, Move(w))
    ensures Shaped(plans, Apply(plans, s, Move(w))) && WorkersInv(plans, Apply(plans, s, Move(w)))
  {
    var t := Apply(plans, s, Move(w));
    MovedWorkerKept(plans[w.rpc].kind, JobOf(plans, w), s.coord, s.workers[w]);
    forall v | v in t.workers
      ensures WorkerInv(plans[v.rpc].kind, JobOf(plans, v), t.coord, t.workers[v])
    {
      if v != w {
        OtherWorkerKept(plans[v.rpc].kind, JobOf(plans, v), NameOf(plans, w), s.coord, s.workers[w], s.workers[v]);
      }
    }
  }

  lemma WorkersKept<R>(plans: seq<Plan<R>>, s: State<R>, a: Action)
    requires Shaped(plans, s) && WorkersInv(plans, s) && Enabled(plans, s, a)
    requires a.Spawn? && s.rpcs[a.rpc].phase.next < |plans[a.rpc].jobs| ==>
      s.workers[Wid(a.rpc, s.rpcs[a.rpc].phase.next)].pc.NotSpawned?
    ensures Shaped(plans, Apply(plans, s, a)) && WorkersInv(plans, Apply(plans, s, a))
  {
    if a.Move? {
      WorkersKeptByMove(plans, s, a.w);
    }
  }

  // ---------- the mutex ----------

  lemma CriticalStep<R>(kind: Kind, job: Job<R>, c: Coord, x: Worker<R>)
    requires !x.pc.NotSpawned? && !x.pc.Done?
    ensures InCritical(StepWorker(kind, job, c, x)) <==>
      x.pc.AcquireLock? || x.pc.AcquireCheck? || x.pc.AcquireRead? || x.pc.ReleaseLock? || x.pc.ReleaseRead?
  {
  }

  lemma MutexKept<R>(plans: seq<Plan<R>>, s: State<R>, a: Action)
    requires MutexInv(s) && |s.rpcs| == |plans| && Enabled(plans, s, a)
    requires a.Spawn? && s.rpcs[a.rpc].phase.next < |plans[a.rpc].jobs| ==>
      s.workers[Wid(a.rpc, s.rpcs[a.rpc].phase.next)].pc.NotSpawned?
    ensures MutexInv(Apply(plans, s, a))
  {
    if a.Move? {
      CriticalStep(plans[a.w.rpc].kind, JobOf(plans, a.w), s.coord, s.workers[a.w]);
    }
  }

  // ---------- the tokens ----------

  ghost predicate OnlyMoved<R>(s: State<R>, t: State<R>, w: Wid) {
    && w in s.workers && t.workers.Keys == s.workers.Keys
    && forall v | v in s.workers && v != w :: t.workers[v] == s.workers[v]
  }

  lemma HoldersSame<R>(s: State<R>, t: State<R>, w: Wid, c: nat)
    requires OnlyMoved(s, t, w)
    requires t.workers[w].token == Some(c) <==> s.workers[w].token == Some(c)
    ensures Holders(t, c) == Holders(s, c)
  {
  }

  lemma HoldersGain<R>(s: State<R>, t: State<R>, w: Wid, c: nat)
    requires OnlyMoved(s, t, w) && s.workers[w].token != Some(c) && t.workers[w].token == Some(c)
    ensures |Holders(t, c)| == |Holders(s, c)| + 1
  {
    assert Holders(t, c) == Holders(s, c) + {w};
  }

  lemma HoldersLose<R>(s: State<R>, t: State<R>, w: Wid, c: nat)
    requires OnlyMoved(s, t, w) && s.workers[w].token == Some(c) && t.workers[w].token != Some(c)
    ensures |Holders(t, c)| == |Holders(s, c)| - 1
  {
    assert w in Holders(s, c);
    assert Holders(t, c) == Holders(s, c) - {w};
  }

  lemma SameHolders<R>(s: State<R>, t: State<R>)
    requires TokensInv(s) && t.coord == s.coord && t.workers.Keys == s.workers.Keys
    requires forall v | v in s.workers :: t.workers[v].token == s.workers[v].token
    ensures TokensInv(t)
  {
    forall c | 0 <= c < |s.coord.slots| ensures Holders(t, c) == Holders(s, c) {}
  }

  /** No worker holds a token of a channel that does not exist yet. */
  lemma NoHolderBeyond<R>(plans: seq<Plan<R>>, s: State<R>)
    requires Shaped(plans, s) && WorkersInv(plans, s) && s.coord.WellFormed()
    ensures Holders(s, |s.coord.slots|) == {}
  {
  }

  /** How one step of one worker changes its token, next to how it changes the coordinator. */
  lemma TokenStep<R>(kind: Kind, job: Job<R>, c: Coord, x: Worker<R>)
    requires c.WellFormed() && WorkerInv(kind, job, c, x)
    requires x.pc.Select? ==> c.CanSend(x.pc.ref)
    requires x.pc.Drain? && x.pc.ref.Some? ==> c.CanDrain(x.pc.ref.value)
    ensures
      var y := StepWorker(kind, job, c, x);
      var e := StepCoord(job.database, c, x);
      match x.pc
      case AcquireCheck => y.token == x.token && e == c.Intern(job.database)
      case Select(ref) => x.token == None && y.token == ref && ref.Some? && c.CanSend(ref) && e == c.Send(ref.value)
      case Drain(_, ref) => ref.Some? && x.token == ref && y.token == None && c.CanDrain(ref.value)
          && e == c.Drain(ref.value)
      case _ => y.token == x.token && e == c
  {
  }

  lemma TokenKeptByMove<R>(plans: seq<Plan<R>>, s: State<R>, t: State<R>, w: Wid, c: nat)
    requires Shaped(plans, s) && WorkersInv(plans, s) && TokensInv(s) && Enabled(plans, s, Move(w))
    requires t == Apply(plans, s, Move(w)) && OnlyMoved(s, t, w) && c < |t.coord.slots|
    ensures t.coord.slots[c] == |Holders(t, c)| && t.coord.slots[c] <= CAPACITY
  {
    var x := s.workers[w];
    TokenStep(plans[w.rpc].kind, JobOf(plans, w), s.coord, x);
    if x.pc.Select? && x.pc.ref == Some(c) {
      HoldersGain(s, t, w, c);
    } else if x.pc.Drain? && x.pc.ref == Some(c) {
      HoldersLose(s, t, w, c);
    } else {
      HoldersSame(s, t, w, c);
      if c == |s.coord.slots| {
        NoHolderBeyond(plans, s);
      }
    }
  }

  lemma TokensKeptByMove<R>(plans: seq<Plan<R>>, s: State<R>, t: State<R>, w: Wid)
    requires Shaped(plans, s) && WorkersInv(plans, s) && TokensInv(s) && Enabled(plans, s, Move(w))
    requires t == Apply(plans, s, Move(w))
    ensures TokensInv(t)
  {
    TokenStep(plans[w.rpc].kind, JobOf(plans, w), s.coord, s.workers[w]);
    InternStable(s.coord, NameOf(plans, w));
    assert OnlyMoved(s, t, w);
    forall c | 0 <= c < |t.coord.slots|
      ensures t.coord.slots[c] == |Holders(t, c)| && t.coord.slots[c] <= CAPACITY
    {
      TokenKeptByMove(plans, s, t, w, c);
    }
  }

  lemma TokensKept<R>(plans: seq<Plan<R>>, s: State<R>, a: Action)
    requires Shaped(plans, s) && WorkersInv(plans, s) && TokensInv(s) && Enabled(plans, s, a)
    ensures TokensInv(Apply(plans, s, a))
  {
    if a.Move? {
      TokensKeptByMove(plans, s, Apply(plans, s, a), a.w);
    } else {
      SameHolders(s, Apply(plans, s, a));
    }
  }

  // ---------- RPCs ----------

  /** A step that leaves RPC `r` and the done-ness of its workers alone keeps its invariant. */
  lemma RpcUntouched<R>(plans: seq<Plan<R>>, s: State<R>, t: State<R>, r: nat)
    requires Shaped(plans, s) && Shaped(plans, t) && r < |plans| && RpcInv(plans, s, r)
    requires t.rpcs[r] == s.rpcs[r].(ctxDone := t.rpcs[r].ctxDone)
    requires forall j: nat | j < |plans[r].jobs| ::
      || s.workers[Wid(r, j)].pc == t.workers[Wid(r, j)].pc
      || (Underway(s.workers[Wid(r, j)]) && Underway(t.workers[Wid(r, j)]))
    ensures RpcInv(plans, t, r)
  {
    assert Sent(t.rpcs[r]) == Sent(s.rpcs[r]);
    forall j: nat | j < |plans[r].jobs| && t.workers[Wid(r, j)].pc.Done?
      ensures HasArrived(t.rpcs[r], j)
    {
      assert HasArrived(s.rpcs[r], j);
    }
    forall m | m in Sent(t.rpcs[r]) ensures m.job < |plans[r].jobs| && t.workers[Wid(r, m.job)].pc == Done(m.res) {
      assert m in Sent(s.rpcs[r]);
    }
  }

  ghost predicate Underway<R>(x: Worker<R>) {
    !x.pc.NotSpawned? && !x.pc.Done?
  }

  lemma SendAppends<R>(c: Rpc<R>, j: nat, x: Worker<R>)
    requires Sends(x)
    ensures Sent(StepRpc(c, j, x)) == Sent(c) + [Message(j, x.pc.res)]
  {
  }

  /** `t` is `s` after worker `w` sent its result. */
  ghost predicate SentBy<R>(plans: seq<Plan<R>>, s: State<R>, t: State<R>, w: Wid) {
    && Shaped(plans, s) && Shaped(plans, t) && IsWid(plans, w) && OnlyMoved(s, t, w)
    && Sends(s.workers[w]) && t.workers[w].pc == Done(s.workers[w].pc.res)
    && t.rpcs[w.rpc] == StepRpc(s.rpcs[w.rpc], w.job, s.workers[w])
  }

  lemma NotSentBefore<R>(plans: seq<Plan<R>>, s: State<R>, t: State<R>, w: Wid)
    requires SentBy(plans, s, t, w) && MessagesInv(plans, s, w.rpc)
    ensures forall m | m in Sent(s.rpcs[w.rpc]) :: m.job != w.job
  {
    forall m | m in Sent(s.rpcs[w.rpc]) ensures m.job != w.job {
      assert s.workers[Wid(w.rpc, m.job)].pc == Done(m.res);
    }
  }

  lemma DoneAfterSend<R>(plans: seq<Plan<R>>, s: State<R>, t: State<R>, w: Wid, j: nat)
    requires SentBy(plans, s, t, w) && MessagesInv(plans, s, w.rpc)
    requires j < |plans[w.rpc].jobs| && t.workers[Wid(w.rpc, j)].pc.Done?
    ensures HasArrived(t.rpcs[w.rpc], j)
  {
    var before, after := Sent(s.rpcs[w.rpc]), Sent(t.rpcs[w.rpc]);
    SendAppends(s.rpcs[w.rpc], w.job, s.workers[w]);
    if j == w.job {
      assert after[|before|].job == j;
    } else {
      assert s.workers[Wid(w.rpc, j)].pc.Done?;
      assert HasArrived(s.rpcs[w.rpc], j);
      var k :| 0 <= k < |before| && before[k].job == j;
      assert after[k].job == j;
    }
  }

  lemma MessagesKeptBySend<R>(plans: seq<Plan<R>>, s: State<R>, t: State<R>, w: Wid)
    requires SentBy(plans, s, t, w) && MessagesInv(plans, s, w.rpc)
    ensures MessagesInv(plans, t, w.rpc)
  {
    var before, after := Sent(s.rpcs[w.rpc]), Sent(t.rpcs[w.rpc]);
    SendAppends(s.rpcs[w.rpc], w.job, s.workers[w]);
    NotSentBefore(plans, s, t, w);
    forall i, k | 0 <= i < k < |after| ensures after[i].job != after[k].job {
      assert after[i] == before[i] && before[i] in before;
    }
    forall j: nat | j < |plans[w.rpc].jobs| && t.workers[Wid(w.rpc, j)].pc.Done?
      ensures HasArrived(t.rpcs[w.rpc], j)
    {
      DoneAfterSend(plans, s, t, w, j);
    }
    forall m | m in after
      ensures m.job < |plans[w.rpc].jobs| && t.workers[Wid(w.rpc, m.job)].pc == Done(m.res)
    {
      if m in before {
        assert Wid(w.rpc, m.job) != w;
      }
    }
  }

  lemma RpcKeptBySend<R>(plans: seq<Plan<R>>, s: State<R>, t: State<R>, w: Wid)
    requires SentBy(plans, s, t, w) && RpcInv(plans, s, w.rpc)
    ensures RpcInv(plans, t, w.rpc)
  {
    MessagesKeptBySend(plans, s, t, w);
    forall j: nat | j < |plans[w.rpc].jobs|
      ensures t.workers[Wid(w.rpc, j)].pc.NotSpawned?
          <==> t.rpcs[w.rpc].phase.Spawning? && j >= t.rpcs[w.rpc].phase.next
    {
      assert Wid(w.rpc, j) in s.workers;
    }
  }

  /** A step of the collector that moves messages from the buffer to the log, or changes its phase. */
  lemma RpcKeptByCollector<R>(plans: seq<Plan<R>>, s: State<R>, t: State<R>, r: nat)
    requires Shaped(plans, s) && Shaped(plans, t) && r < |plans| && RpcInv(plans, s, r)
    requires t.workers == s.workers && Sent(t.rpcs[r]) == Sent(s.rpcs[r])
    requires PhaseInv(|plans[r].jobs|, t.rpcs[r])
    requires t.rpcs[r].phase.Spawning? ==> t.rpcs[r].phase == s.rpcs[r].phase
    requires s.rpcs[r].phase.Spawning? && !t.rpcs[r].phase.Spawning? ==> s.rpcs[r].phase.next == |plans[r].jobs|
    requires t.rpcs[r].results == Gather(t.rpcs[r].log, ItemsOf)
    requires t.rpcs[r].errs == Gather(t.rpcs[r].log, FailuresOf)
    ensures RpcInv(plans, t, r)
  {
    forall j: nat | j < |plans[r].jobs| && t.workers[Wid(r, j)].pc.Done?
      ensures HasArrived(t.rpcs[r], j)
    {
      assert HasArrived(s.rpcs[r], j);
    }
  }

  lemma RpcKeptBySpawn<R>(plans: seq<Plan<R>>, s: State<R>, r: nat)
    requires Shaped(plans, s) && r < |plans| && RpcInv(plans, s, r) && Enabled(plans, s, Spawn(r))
    ensures Shaped(plans, Apply(plans, s, Spawn(r)))
    ensures RpcInv(plans, Apply(plans, s, Spawn(r)), r)
  {
    var t := Apply(plans, s, Spawn(r));
    assert Sent(t.rpcs[r]) == Sent(s.rpcs[r]);
    if s.rpcs[r].phase.next < |plans[r].jobs| {
      var w := Wid(r, s.rpcs[r].phase.next);
      assert s.workers[w].pc.NotSpawned?;
      forall m | m in Sent(t.rpcs[r]) ensures m.job < |plans[r].jobs| && t.workers[Wid(r, m.job)].pc == Done(m.res) {
        assert m in Sent(s.rpcs[r]);
        assert Wid(r, m.job) != w;
      }
      forall j: nat | j < |plans[r].jobs| && t.workers[Wid(r, j)].pc.Done?
        ensures HasArrived(t.rpcs[r], j)
      {
        assert HasArrived(s.rpcs[r], j);
      }
    } else {
      RpcKeptByCollector(plans, s, t, r);
    }
  }

  lemma ReceivedKeepsAccounts<R>(c: Rpc<R>)
    requires c.buffer != [] && c.results == Gather(c.log, ItemsOf) && c.errs == Gather(c.log, FailuresOf)
    ensures Sent(Received(c)) == Sent(c)
    ensures Received(c).results == Gather(Received(c).log, ItemsOf)
    ensures Received(c).errs == Gather(Received(c).log, FailuresOf)
  {
    assert (c.log + [c.buffer[0]])[..|c.log|] == c.log;
  }

  lemma RpcKeptByReceive<R>(plans: seq<Plan<R>>, s: State<R>, r: nat)
    requires Shaped(plans, s) && r < |plans| && RpcInv(plans, s, r) && Enabled(plans, s, Receive(r))
    ensures Shaped(plans, Apply(plans, s, Receive(r)))
    ensures RpcInv(plans, Apply(plans, s, Receive(r)), r)
  {
    var t := Apply(plans, s, Receive(r));
    ReceivedKeepsAccounts(s.rpcs[r]);
    RpcKeptByCollector(plans, s, t, r);
  }

  lemma MovesUnderway<R>(kind: Kind, job: Job<R>, c: Coord, x: Worker<R>)
    requires Underway(x) && !Sends(x)
    ensures Underway(StepWorker(kind, job, c, x))
  {
  }

  lemma RpcKeptByMove<R>(plans: seq<Plan<R>>, s: State<R>, w: Wid, r: nat)
    requires Shaped(plans, s) && r < |plans| && RpcInv(plans, s, r) && Enabled(plans, s, Move(w))
    ensures Shaped(plans, Apply(plans, s, Move(w)))
    ensures RpcInv(plans, Apply(plans, s, Move(w)), r)
  {
    var t := Apply(plans, s, Move(w));
    if w.rpc == r && Sends(s.workers[w]) {
      RpcKeptBySend(plans, s, t, w);
    } else {
      if !Sends(s.workers[w]) {
        MovesUnderway(plans[w.rpc].kind, JobOf(plans, w), s.coord, s.workers[w]);
      }
      RpcUntouched(plans, s, t, r);
    }
  }

  lemma RpcsKept<R>(plans: seq<Plan<R>>, s: State<R>, a: Action, r: nat)
    requires Shaped(plans, s) && r < |plans| && RpcInv(plans, s, r) && Enabled(plans, s, a)
    requires a.Spawn? ==> RpcInv(plans, s, a.rpc)
    requires Shaped(plans, Apply(plans, s, a))
    ensures RpcInv(plans, Apply(plans, s, a), r)
  {
    var t := Apply(plans, s, a);
    match a
    case Spawn(q) =>
      if q == r { RpcKeptBySpawn(plans, s, r); } else { RpcUntouched(plans, s, t, r); }
    case Move(w) => RpcKeptByMove(plans, s, w, r);
    case GiveUp(w) => RpcUntouched(plans, s, t, r);
    case Receive(q) =>
      if q == r { RpcKeptByReceive(plans, s, r); } else { RpcUntouched(plans, s, t, r); }
    case Return(q) =>
      if q == r { RpcKeptByCollector(plans, s, t, r); } else { RpcUntouched(plans, s, t, r); }
    case CancelRpc(_) => RpcUntouched(plans, s, t, r);
  }

  lemma NextIsNotSpawned<R>(plans: seq<Plan<R>>, s: State<R>, r: nat)
    requires Inv(plans, s) && Enabled(plans, s, Spawn(r))
    ensures RpcInv(plans, s, r)
    ensures s.rpcs[r].phase.next < |plans[r].jobs| ==> s.workers[Wid(r, s.rpcs[r].phase.next)].pc.NotSpawned?
  {
    assert RpcInv(plans, s, r);
    assert SpawnedInv(plans, s, r);
  }

  /** Every step of every goroutine, and of the environment, keeps the invariant. */
  lemma StepKeepsInv<R>(plans: seq<Plan<R>>, s: State<R>, a: Action)
    requires Inv(plans, s) && Enabled(plans, s, a)
    ensures Inv(plans, Apply(plans, s, a))
  {
    if a.Spawn? {
      NextIsNotSpawned(plans, s, a.rpc);
    }
    WorkersKept(plans, s, a);
    MutexKept(plans, s, a);
    TokensKept(plans, s, a);
    forall r | 0 <= r < |plans| ensures RpcInv(plans, Apply(plans, s, a), r) {
      RpcsKept(plans, s, a, r);
    }
  }

  /** The invariant holds in every state of every run. */
  lemma {:induction false} RunInv<R>(plans: seq<Plan<R>>, run: seq<State<R>>, k: nat)
    requires IsRun(plans, run) && k < |run|
    ensures Inv(plans, run[k])
  {
    if k == 0 {
      InitInv(plans, run[0]);
    } else {
      RunInv(plans, run, k - 1);
      assert Next(plans, run[k - 1], run[k - 1 + 1]);
      var a :| Enabled(plans, run[k - 1], a) && run[k] == Apply(plans, run[k - 1], a);
      StepKeepsInv(plans, run[k - 1], a);
    }
  }

  /** A run of more than one state is a shorter run and one more step. */
  lemma LastStep<R>(plans: seq<Plan<R>>, run: seq<State<R>>) returns (before: seq<State<R>>, a: Action)
    requires IsRun(plans, run) && |run| > 1
    ensures before == run[..|run| - 1] && IsRun(plans, before)
    ensures before[|before| - 1] == run[|run| - 2]
    ensures Inv(plans, run[|run| - 2]) && Inv(plans, run[|run| - 1])
    ensures Enabled(plans, run[|run| - 2], a) && run[|run| - 1] == Apply(plans, run[|run| - 2], a)
  {
    var n := |run| - 1;
    before := run[..n];
    forall k | 0 <= k < |before| - 1 ensures Next(plans, before[k], before[k + 1]) {
      assert Next(plans, run[k], run[k + 1]);
    }
    RunInv(plans, run, n - 1);
    RunInv(plans, run, n);
    assert Next(plans, run[n - 1], run[n - 1 + 1]);
    a :| Enabled(plans, run[n - 1], a) && run[n] == Apply(plans, run[n - 1], a);
  }
}
