/**
  The whole server as a step machine: any number of RPCs, each fanning out one
  worker per database, all sharing one coordinator and its mutex.

  A step is named by an `Action`.  A worker's program counter has one value
  for every point at which another goroutine can run between two of its
  effects on shared state.
 */
module Machine {
  import opened Wrappers
  import opened Coordinator
  import opened Workers
  import opened FanOut

  datatype Job<+R> = Job(database: string, script: Script<R>)

  /** One call of `ListFunctions`, `ListSequences`, `ListExtensions`, `ListSchemas` or `ListTables`. */
  datatype Plan<+R> = Plan(kind: Kind, jobs: seq<Job<R>>)

  datatype Wid = Wid(rpc: nat, job: nat)

  datatype Pc<+R> =
    | NotSpawned
    | AcquireLock                                       // about to lock, in Acquire
    | AcquireCheck                                      // holds the mutex, about to test the map
    | AcquireRead                                       // holds the mutex, about to read the map
    | AcquireUnlock(ref: Option<nat>)                   // holds the mutex and a channel reference
    | Select(ref: Option<nat>)                          // at the select, mutex dropped
    | Connect                                           // permit granted
    | Query                                             // pool open
    | Reading(next: nat, acc: seq<R>)                   // inside the row loop
    | Returning(res: Fetched<R>)                        // running deferred calls, then sending the result
    | ReleaseLock(res: Fetched<R>)                      // about to lock, in the deferred Release
    | ReleaseRead(res: Fetched<R>)                      // holds the mutex, about to read the map
    | ReleaseUnlock(res: Fetched<R>, ref: Option<nat>)  // holds the mutex and a channel reference
    | Drain(res: Fetched<R>, ref: Option<nat>)          // about to receive, mutex dropped
    | Done(res: Fetched<R>)                             // result sent

  /**
    `token` is the channel the worker has put a token into and not yet drained;
    `takes` and `frees` count its successful sends and its drains.
   */
  datatype Worker<+R> = Worker(
    pc: Pc<R>, defers: seq<Deferred>, poolOpen: bool,
    token: Option<nat>, takes: nat, frees: nat)

  datatype Phase<+R> = Spawning(next: nat) | Collecting | Returned(out: FanIn<R>)

  /** `log` is everything the collector has received; `results` and `errs` are its two slices. */
  datatype Rpc<+R> = Rpc(
    phase: Phase<R>, ctxDone: bool, buffer: seq<Message<R>>,
    log: seq<Message<R>>, results: seq<Item<R>>, errs: seq<Failure>)

  datatype State<+R> = State(
    mu: Option<Wid>, coord: Coord,
    workers: map<Wid, Worker<R>>, rpcs: seq<Rpc<R>>)

  datatype Action =
    | Spawn(rpc: nat)      // start one goroutine, or begin collecting
    | Move(w: Wid)         // the worker's next step; at the select, the send
    | GiveUp(w: Wid)       // at the select, the context case
    | Receive(rpc: nat)    // the collector receives one message
    | Return(rpc: nat)     // the collector returns
    | CancelRpc(rpc: nat)  // the environment ends the RPC's context

  // ---------- names ----------

  predicate IsWid<R>(plans: seq<Plan<R>>, w: Wid) {
    w.rpc < |plans| && w.job < |plans[w.rpc].jobs|
  }

  function JobOf<R>(plans: seq<Plan<R>>, w: Wid): Job<R>
    requires IsWid(plans, w)
  {
    plans[w.rpc].jobs[w.job]
  }

  function NameOf<R>(plans: seq<Plan<R>>, w: Wid): string
    requires IsWid(plans, w)
  {
    JobOf(plans, w).database
  }

  function OutcomeOf<R>(plans: seq<Plan<R>>, w: Wid): Fetched<R>
    requires IsWid(plans, w)
  {
    Fetch(plans[w.rpc].kind, NameOf(plans, w), JobOf(plans, w).script)
  }

  /** The state has one worker per job and one collector per RPC. */
  ghost predicate Shaped<R>(plans: seq<Plan<R>>, s: State<R>) {
    && |s.rpcs| == |plans|
    && forall w: Wid :: w in s.workers <==> IsWid(plans, w)
  }

  // ---------- the initial state ----------

  ghost predicate IsInit<R>(plans: seq<Plan<R>>, s: State<R>) {
    && Shaped(plans, s)
    && s.mu == None && s.coord == Coord(map[], [])
    && (forall w | w in s.workers :: s.workers[w] == Worker(NotSpawned, [], false, None, 0, 0))
    && (forall r | 0 <= r < |s.rpcs| :: s.rpcs[r] == Rpc(Spawning(0), false, [], [], [], []))
  }

  // ---------- steps of one worker ----------

  /** The worker's next step can run now. */
  predicate CanMove<R>(plans: seq<Plan<R>>, s: State<R>, w: Wid)
    requires IsWid(plans, w) && w in s.workers && w.rpc < |s.rpcs|
  {
    match s.workers[w].pc
    case NotSpawned => false
    case AcquireLock => s.mu == None
    case ReleaseLock(_) => s.mu == None
    case Select(ref) => s.coord.CanSend(ref)
    case Drain(_, ref) => ref.Some? ==> s.coord.CanDrain(ref.value)
    case Returning(_) => s.workers[w].defers == [] ==> |s.rpcs[w.rpc].buffer| < |plans[w.rpc].jobs|
    case Done(_) => false
    case _ => true
  }

  /** The worker's own fields after its next step; `c` is the coordinator it sees. */
  function StepWorker<R>(kind: Kind, job: Job<R>, c: Coord, x: Worker<R>): Worker<R> {
    match x.pc
    case NotSpawned => x
    case AcquireLock => x.(pc := AcquireCheck)
    case AcquireCheck => x.(pc := AcquireRead)
    case AcquireRead => x.(pc := AcquireUnlock(c.Lookup(job.database)))
    case AcquireUnlock(ref) => x.(pc := Select(ref))
    case Select(ref) => x.(pc := Connect, defers := [ReleasePermit], token := ref, takes := x.takes + 1)
    case Connect =>
      if job.script.NoConnection? then x.(pc := Returning(Failed(ConnectFailed)))
      else x.(pc := Query, defers := x.defers + [ClosePool], poolOpen := true)
    case Query =>
      if !job.script.Delivers? then x.(pc := Returning(Failed(QueryFailed)))
      else x.(pc := Reading(0, []), defers := x.defers + [CloseRows])
    case Reading(next, acc) => StepReading(kind, job, x, next, acc)
    case Returning(res) => StepReturning(x, res)
    case ReleaseLock(res) => x.(pc := ReleaseRead(res))
    case ReleaseRead(res) => x.(pc := ReleaseUnlock(res, c.Lookup(job.database)))
    case ReleaseUnlock(res, ref) => x.(pc := Drain(res, ref))
    case Drain(res, ref) =>
      if ref.None? then x.(pc := Returning(res))
      else x.(pc := Returning(res), token := None, frees := x.frees + 1)
    case Done(_) => x
  }

  /** One turn of the row loop, or what follows it. */
  function StepReading<R>(kind: Kind, job: Job<R>, x: Worker<R>, next: nat, acc: seq<R>): Worker<R> {
    if !job.script.Delivers? then x  // no rows to read
    else if next < |job.script.rows| then
      (match job.script.rows[next]
       case Bad => x.(pc := Returning(Failed(RowFailed(next))))
       case Good(row) => x.(pc := Reading(next + 1, acc + [row])))
    else if !job.script.iterationOk then x.(pc := Returning(Failed(IterationFailed)))
    else x.(pc := Returning(Rows(Finish(kind, job.database, acc))))
  }

  /** Runs the deferred call registered last; with none left, the result is sent. */
  function StepReturning<R>(x: Worker<R>, res: Fetched<R>): Worker<R> {
    if x.defers == [] then x.(pc := Done(res))
    else
      var rest := x.defers[..|x.defers| - 1];
      match x.defers[|x.defers| - 1]
      case CloseRows => x.(defers := rest)
      case ClosePool => x.(defers := rest, poolOpen := false)
      case ReleasePermit => x.(defers := rest, pc := ReleaseLock(res))
  }

  /** The coordinator after the step of a worker for database `d`. */
  function StepCoord<R>(d: string, c: Coord, x: Worker<R>): Coord {
    match x.pc
    case AcquireCheck => c.Intern(d)
    case Select(ref) => if c.CanSend(ref) then c.Send(ref.value) else c
    case Drain(_, ref) => if ref.Some? && c.CanDrain(ref.value) then c.Drain(ref.value) else c
    case _ => c
  }

  /** The mutex after the step of worker `w`. */
  function StepMutex<R>(mu: Option<Wid>, w: Wid, x: Worker<R>): Option<Wid> {
    match x.pc
    case AcquireLock => Some(w)
    case ReleaseLock(_) => Some(w)
    case AcquireUnlock(_) => None
    case ReleaseUnlock(_, _) => None
    case _ => mu
  }

  /** The worker's step sends its result: nothing is left to undo. */
  predicate Sends<R>(x: Worker<R>) {
    x.pc.Returning? && x.defers == []
  }

  function StepRpc<R>(c: Rpc<R>, j: nat, x: Worker<R>): Rpc<R> {
    if Sends(x) then c.(buffer := c.buffer + [Message(j, x.pc.res)]) else c
  }

  // ---------- the machine ----------

  predicate Enabled<R>(plans: seq<Plan<R>>, s: State<R>, a: Action)
    requires |s.rpcs| == |plans|
  {
    match a
    case Spawn(r) =>
      r < |plans| && s.rpcs[r].phase.Spawning?
          && (s.rpcs[r].phase.next < |plans[r].jobs| ==> Wid(r, s.rpcs[r].phase.next) in s.workers)
    case Move(w) => IsWid(plans, w) && w in s.workers && CanMove(plans, s, w)
    case GiveUp(w) =>
      IsWid(plans, w) && w in s.workers && s.workers[w].pc.Select? && s.rpcs[w.rpc].ctxDone
    case Receive(r) =>
      r < |plans| && s.rpcs[r].phase.Collecting? && |s.rpcs[r].log| < |plans[r].jobs| && s.rpcs[r].buffer != []
    case Return(r) =>
      r < |plans| && s.rpcs[r].phase.Collecting? && |s.rpcs[r].log| == |plans[r].jobs|
    case CancelRpc(r) => r < |plans| && !s.rpcs[r].ctxDone
  }

  function Received<R>(c: Rpc<R>): Rpc<R>
    requires c.buffer != []
  {
    var m := c.buffer[0];
    c.(buffer := c.buffer[1..],
       log := c.log + [m],
       results := c.results + ItemsOf(m),
       errs := c.errs + FailuresOf(m))
  }

  function Concluded<R>(c: Rpc<R>, total: nat): FanIn<R> {
    if |c.errs| > 0 then PartlyFailed(|c.errs|, total, c.errs) else Aggregated(c.results)
  }

  function Apply<R>(plans: seq<Plan<R>>, s: State<R>, a: Action): State<R>
    requires |s.rpcs| == |plans| && Enabled(plans, s, a)
  {
    match a
    case Spawn(r) =>
      var c := s.rpcs[r];
      if c.phase.next < |plans[r].jobs| then
        var w := Wid(r, c.phase.next);
        s.(rpcs := s.rpcs[r := c.(phase := Spawning(c.phase.next + 1))],
           workers := s.workers[w := s.workers[w].(pc := AcquireLock)])
      else
        s.(rpcs := s.rpcs[r := c.(phase := Collecting)])
    case Move(w) =>
      var x := s.workers[w];
      State(StepMutex(s.mu, w, x), StepCoord(NameOf(plans, w), s.coord, x),
            s.workers[w := StepWorker(plans[w.rpc].kind, JobOf(plans, w), s.coord, x)],
            s.rpcs[w.rpc := StepRpc(s.rpcs[w.rpc], w.job, x)])
    case GiveUp(w) =>
      s.(workers := s.workers[w := s.workers[w].(pc := Returning(Failed(AcquireFailed)))])
    case Receive(r) => s.(rpcs := s.rpcs[r := Received(s.rpcs[r])])
    case Return(r) =>
      s.(rpcs := s.rpcs[r := s.rpcs[r].(phase := Returned(Concluded(s.rpcs[r], |plans[r].jobs|)))])
    case CancelRpc(r) => s.(rpcs := s.rpcs[r := s.rpcs[r].(ctxDone := true)])
  }

  ghost predicate Next<R>(plans: seq<Plan<R>>, s: State<R>, t: State<R>) {
    |s.rpcs| == |plans| && exists a :: Enabled(plans, s, a) && t == Apply(plans, s, a)
  }

  /** A finite run of the machine from an initial state. */
  ghost predicate IsRun<R>(plans: seq<Plan<R>>, run: seq<State<R>>) {
    && run != [] && IsInit(plans, run[0])
    && forall k | 0 <= k < |run| - 1 :: Next(plans, run[k], run[k + 1])
  }

  /** A final state: every collector has returned and every worker has sent. */
  ghost predicate Finished<R>(s: State<R>) {
    && (forall w | w in s.workers :: s.workers[w].pc.Done?)
    && (forall r | 0 <= r < |s.rpcs| :: s.rpcs[r].phase.Returned?)
  }
}
