/**
  What one `list...ForDatabase` worker computes, and the worker itself as a
  method that runs its deferred calls last-in, first-out.

  Everything the network and PostgreSQL decide is a `Script`: whether the pool
  connects, whether the query starts, what each row scan gives and whether
  iteration ended cleanly.
 */
module Workers {
  import opened Wrappers
  import opened Coordinator

  datatype Kind = Functions | Sequences | Extensions | Schemas | Tables

  datatype Failure = AcquireFailed | ConnectFailed | QueryFailed | RowFailed(at: nat) | IterationFailed

  datatype Scanned<+R> = Good(row: R) | Bad

  datatype Script<+R> = NoConnection | NoQuery | Delivers(rows: seq<Scanned<R>>, iterationOk: bool)

  /** An element of an aggregated list: a row tagged with its database, or one database's tables. */
  datatype Item<+R> = Tagged(database: string, row: R) | TablesInfo(database: string, tables: seq<R>)

  datatype Fetched<+R> = Rows(items: seq<Item<R>>) | Failed(why: Failure)

  datatype Deferred = ReleasePermit | ClosePool | CloseRows

  /** The order in which a worker that gets that far registers its deferred calls. */
  const FULL_STACK: seq<Deferred> := [ReleasePermit, ClosePool, CloseRows]

  // ---------- what a worker that was granted its permit returns ----------

  function FirstBad<R>(rows: seq<Scanned<R>>): (at: Option<nat>)
    ensures at.None? ==> forall i | 0 <= i < |rows| :: rows[i].Good?
    ensures at.Some? ==> at.value < |rows| && rows[at.value].Bad? && forall i | 0 <= i < at.value :: rows[i].Good?
  {
    if rows == [] then None
    else if rows[0].Bad? then Some(0)
    else match FirstBad(rows[1..]) case None => None case Some(k) => Some(k + 1)
  }

  function Values<R>(rows: seq<Scanned<R>>): (values: seq<R>)
    requires forall i | 0 <= i < |rows| :: rows[i].Good?
    ensures |values| == |rows|
    ensures forall i | 0 <= i < |rows| :: values[i] == rows[i].row
  {
    seq(|rows|, i requires 0 <= i < |rows| => rows[i].row)
  }

  function Tag<R>(database: string, values: seq<R>): (items: seq<Item<R>>)
    ensures |items| == |values|
  {
    seq(|values|, i requires 0 <= i < |values| => Tagged(database, values[i]))
  }

  lemma ValuesExtend<R>(rows: seq<Scanned<R>>, n: nat)
    requires n < |rows| && forall i | 0 <= i <= n :: rows[i].Good?
    ensures Values(rows[..n + 1]) == Values(rows[..n]) + [rows[n].row]
  {
  }

  lemma TagExtend<R>(database: string, values: seq<R>, v: R)
    ensures Tag(database, values + [v]) == Tag(database, values) + [Tagged(database, v)]
  {
  }

  function Finish<R>(kind: Kind, database: string, values: seq<R>): seq<Item<R>> {
    if kind.Tables? then [TablesInfo(database, values)] else Tag(database, values)
  }

  function Fetch<R>(kind: Kind, database: string, script: Script<R>): Fetched<R> {
    match script
    case NoConnection => Failed(ConnectFailed)
    case NoQuery => Failed(QueryFailed)
    case Delivers(rows, iterationOk) =>
      var bad := FirstBad(rows);
      if bad.Some? then Failed(RowFailed(bad.value))
      else if !iterationOk then Failed(IterationFailed)
      else Rows(Finish(kind, database, Values(rows)))
  }

  /** The rows an item list stands for, each with the database it is attributed to. */
  function Attributed<R>(items: seq<Item<R>>): seq<(string, R)> {
    if items == [] then []
    else (match items[0]
          case Tagged(d, row) => [(d, row)]
          case TablesInfo(d, tables) => seq(|tables|, i requires 0 <= i < |tables| => (d, tables[i])))
         + Attributed(items[1..])
  }

  lemma {:induction false} AttributedTag<R>(database: string, values: seq<R>)
    ensures |Attributed(Tag(database, values))| == |values|
    ensures forall i | 0 <= i < |values| :: Attributed(Tag(database, values))[i] == (database, values[i])
  {
    if values != [] {
      AttributedTag(database, values[1..]);
      assert Tag(database, values)[1..] == Tag(database, values[1..]);
      assert Attributed(Tag(database, values)) == [(database, values[0])] + Attributed(Tag(database, values[1..]));
    }
  }

  /**
    A worker's result is a success exactly when the connection, the query,
    every scan and the iteration all worked, and then it holds every delivered
    row once, in delivery order, attributed to the worker's own database.
    Otherwise it names the first thing that went wrong.
   */
  lemma FetchAccountsForEveryRow<R>(kind: Kind, database: string, script: Script<R>)
    ensures
      Fetch(kind, database, script).Rows? <==>
      script.Delivers? && script.iterationOk && forall i | 0 <= i < |script.rows| :: script.rows[i].Good?
    ensures
      Fetch(kind, database, script).Rows? ==>
        var attributed := Attributed(Fetch(kind, database, script).items);
        && |attributed| == |script.rows|
        && forall i | 0 <= i < |attributed| :: attributed[i] == (database, script.rows[i].row)
    ensures forall at: nat ::
      Fetch(kind, database, script) == Failed(RowFailed(at)) <==>
      && script.Delivers? && at < |script.rows| && script.rows[at].Bad?
      && forall i | 0 <= i < at :: script.rows[i].Good?
    ensures
      Fetch(kind, database, script) == Failed(IterationFailed) <==>
      script.Delivers? && !script.iterationOk && forall i | 0 <= i < |script.rows| :: script.rows[i].Good?
    ensures Fetch(kind, database, script) == Failed(ConnectFailed) <==> script.NoConnection?
    ensures Fetch(kind, database, script) == Failed(QueryFailed) <==> script.NoQuery?
    ensures Fetch(kind, database, script) != Failed(AcquireFailed)
  {
    if Fetch(kind, database, script).Rows? {
      var values := Values(script.rows);
      if kind.Tables? {
        var block := seq(|values|, i requires 0 <= i < |values| => (database, values[i]));
        var one: seq<Item<R>> := [TablesInfo(database, values)];
        assert one[1..] == [];
        assert Attributed(one) == block + Attributed(one[1..]) == block;
      } else {
        AttributedTag(database, values);
      }
    }
  }

  // ---------- the worker as the source writes it ----------

  /** What a worker does to the coordinator, its pool and its rows, in order. */
  datatype Event = Took | PoolOpened | RowsOpened | RowsClosed | PoolClosed | PermitFreed

  function Opening(d: Deferred): Event {
    match d case ReleasePermit => Took case ClosePool => PoolOpened case CloseRows => RowsOpened
  }

  function Undoing(d: Deferred): Event {
    match d case ReleasePermit => PermitFreed case ClosePool => PoolClosed case CloseRows => RowsClosed
  }

  function Openings(stack: seq<Deferred>): seq<Event> {
    seq(|stack|, i requires 0 <= i < |stack| => Opening(stack[i]))
  }

  /** Go specification, "Defer statements": deferred calls run in the reverse of the order they were deferred. */
  function Unwinding(stack: seq<Deferred>): seq<Event> {
    if stack == [] then [] else [Undoing(stack[|stack| - 1])] + Unwinding(stack[..|stack| - 1])
  }

  /** How many deferred calls the worker has registered when its body returns. */
  function Depth<R>(script: Script<R>): nat {
    match script case NoConnection => 1 case NoQuery => 2 case Delivers(_, _) => 3
  }

  /** What a worker that was granted its permit does, first to last. */
  function FullTrace<R>(script: Script<R>): seq<Event> {
    Openings(FULL_STACK[..Depth(script)]) + Unwinding(FULL_STACK[..Depth(script)])
  }

  /** The row loop shared by the four flat listings: scan, tag, append; stop at the first bad scan. */
  method ScanRows<R>(kind: Kind, dbName: string, rows: seq<Scanned<R>>, iterationOk: bool) returns (res: Fetched<R>)
    requires !kind.Tables?
    ensures res == Fetch(kind, dbName, Delivers(rows, iterationOk))
  {
    var items := [];
    var next := 0;
    while next < |rows|
      invariant 0 <= next <= |rows|
      invariant forall i | 0 <= i < next :: rows[i].Good?
      invariant items == Tag(dbName, Values(rows[..next]))
    {
      match rows[next]
      case Bad =>
        return Failed(RowFailed(next));
      case Good(row) =>
        ValuesExtend(rows, next);
        TagExtend(dbName, Values(rows[..next]), row);
        items := items + [Tagged(dbName, row)];
        next := next + 1;
    }
    if !iterationOk {
      return Failed(IterationFailed);
    }
    assert rows[..next] == rows;
    return Rows(items);
  }

  /**
    What every worker does between its permit and its row loop: defer the
    release, connect, defer the close, query, defer closing the rows.  `stop`
    says where it returned early; `defers` is what it leaves to run.
   */
  method OpenRows<R>(script: Script<R>) returns (stop: Option<Failure>, defers: seq<Deferred>)
    ensures defers == FULL_STACK[..Depth(script)]
    ensures stop ==
      match script
      case NoConnection => Some(ConnectFailed)
      case NoQuery => Some(QueryFailed)
      case Delivers(_, _) => None
  {
    defers := [ReleasePermit];
    if script.NoConnection? {
      return Some(ConnectFailed), defers;
    }
    defers := defers + [ClosePool];
    if script.NoQuery? {
      return Some(QueryFailed), defers;
    }
    defers := defers + [CloseRows];
    stop := None;
  }

  lemma UnwindOne(n: nat)
    requires n < |FULL_STACK|
    ensures FULL_STACK[..n + 1][n] == FULL_STACK[n] && FULL_STACK[..n + 1][..n] == FULL_STACK[..n]
    ensures Unwinding(FULL_STACK[..n + 1]) == [Undoing(FULL_STACK[n])] + Unwinding(FULL_STACK[..n])
  {
    assert FULL_STACK[..n + 1][..n] == FULL_STACK[..n];
  }

  /**
    Runs the deferred calls; the last one registered runs first.  `idle` is the
    coordinator without this worker's token, and is what is left behind.
   */
  method RunDeferred(c: ConnectionCoordinator, dbName: string, stack: seq<Deferred>, ghost idle: Coord)
    returns (trace: seq<Event>)
    requires c.Valid() && 0 < |stack| <= |FULL_STACK| && stack == FULL_STACK[..|stack|]
    requires dbName in idle.sems && idle.sems[dbName] < |idle.slots| && c.View() == idle.Send(idle.sems[dbName])
    modifies c.made
    ensures c.Valid() && c.View() == idle
    ensures trace == Unwinding(stack)
  {
    SendThenDrain(idle, idle.sems[dbName]);
    var defers := stack;
    trace := [];
    while defers != []
      invariant |defers| <= |stack| && defers == FULL_STACK[..|defers|]
      invariant c.Valid()
      invariant c.View() == if defers == [] then idle else idle.Send(idle.sems[dbName])
      invariant trace + Unwinding(defers) == Unwinding(stack)
      decreases |defers|
    {
      var last := defers[|defers| - 1];
      UnwindOne(|defers| - 1);
      defers := defers[..|defers| - 1];
      if last.ReleasePermit? {
        var freed := c.Release(dbName);
      }
      trace := trace + [Undoing(last)];
    }
  }

  /**
    How a worker run with nobody else on the coordinator ends, with `outcome`
    and `work` what it returns and does once granted: it blocks only on a full
    semaphore, and it is refused only by a done context.
   */
  ghost predicate RanAlone<R>(
    before: Coord, ctxDone: bool, dbName: string, outcome: Fetched<R>, work: seq<Event>,
    res: Option<Fetched<R>>, trace: seq<Event>)
  {
    var ready := before.Intern(dbName);
    match res
    case None => trace == [] && !ctxDone && !ready.CanSend(ready.Lookup(dbName))
    case Some(fetched) =>
      || (fetched == Failed(AcquireFailed) && ctxDone && trace == [])
      || (fetched == outcome && trace == work)
  }

  /** One worker of a flat listing.  It hands every token back on every path. */
  method ListForDatabase<R>(c: ConnectionCoordinator, ctxDone: bool, kind: Kind, dbName: string, script: Script<R>)
    returns (res: Option<Fetched<R>>, trace: seq<Event>)
    requires c.Valid() && !kind.Tables?
    modifies c, c.made
    ensures c.Valid() && c.View() == old(c.View()).Intern(dbName)
    ensures RanAlone(old(c.View()), ctxDone, dbName, Fetch(kind, dbName, script), FullTrace(script), res, trace)
  {
    ghost var ready := old(c.View()).Intern(dbName);
    var permit := c.Acquire(ctxDone, dbName);
    match permit
    case AcquireBlocked =>
      res, trace := None, [];
    case Cancelled =>
      res, trace := Some(Failed(AcquireFailed)), [];
    case Granted =>
      assert c.made == old(c.made) + c.made[|old(c.made)|..];
      var stop, defers := OpenRows(script);
      var fetched;
      if stop.Some? {
        fetched := Failed(stop.value);
      } else {
        fetched := ScanRows(kind, dbName, script.rows, script.iterationOk);
      }
      var undone := RunDeferred(c, dbName, defers, ready);
      res, trace := Some(fetched), Openings(defers) + undone;
  }

  // ---------- the order of a worker's effects ----------

  lemma {:induction false} UnwindingAt(stack: seq<Deferred>, k: nat)
    requires k < |stack|
    ensures |Unwinding(stack)| == |stack|
    ensures Unwinding(stack)[k] == Undoing(stack[|stack| - 1 - k])
  {
    var init := stack[..|stack| - 1];
    if init == [] {
      assert Unwinding(init) == [];
    } else {
      UnwindingAt(init, if k == 0 then 0 else k - 1);
    }
  }

  /**
    Whatever happens to a granted worker, its effects nest: what it opened
    `i`-th it undoes `i`-th from the end.  So its permit is taken first and
    freed last, a pool it opened is closed immediately before that, and rows it
    opened are closed before the pool.
   */
  lemma PoolClosesBeforePermitFrees<R>(script: Script<R>)
    ensures |FullTrace(script)| == 2 * Depth(script)
    ensures forall i | 0 <= i < Depth(script) ::
      && FullTrace(script)[i] == Opening(FULL_STACK[i])
      && FullTrace(script)[2 * Depth(script) - 1 - i] == Undoing(FULL_STACK[i])
    ensures FullTrace(script)[0] == Took && FullTrace(script)[2 * Depth(script) - 1] == PermitFreed
    ensures PoolOpened in FullTrace(script) <==> !script.NoConnection?
    ensures PoolOpened in FullTrace(script) ==> FullTrace(script)[2 * Depth(script) - 2] == PoolClosed
    ensures
      FullTrace(script) ==
      match script
      case NoConnection => [Took, PermitFreed]
      case NoQuery => [Took, PoolOpened, PoolClosed, PermitFreed]
      case Delivers(_, _) => [Took, PoolOpened, RowsOpened, RowsClosed, PoolClosed, PermitFreed]
  {
    var trace, d := FullTrace(script), Depth(script);
    var stack := FULL_STACK[..d];
    UnwindingAt(stack, 0);
    forall i | 0 <= i < d
      ensures trace[i] == Opening(FULL_STACK[i]) && trace[2 * d - 1 - i] == Undoing(FULL_STACK[i])
    {
      UnwindingAt(stack, d - 1 - i);
      assert trace[2 * d - 1 - i] == Unwinding(stack)[d - 1 - i];
    }
    assert FULL_STACK[0] == ReleasePermit && FULL_STACK[1] == ClosePool && FULL_STACK[2] == CloseRows;
    if !script.NoConnection? {
      assert trace[1] == PoolOpened && trace[2 * d - 1 - 1] == PoolClosed;
    }
  }
}
