/**
  The row loop of `listTablesForDatabase`: each query row becomes a table
  value, a NULL document or a JSON null leaving the zero value in place.
 */
module TableRows {
  import opened Wrappers
  import opened Coordinator
  import opened Workers
  import opened Sql
  import opened TablesQuery

  datatype TableStats = TableStats(rowEstimate: int, totalSizeBytes: nat, heapSizeBytes: nat, toastSizeBytes: nat)
  datatype TableColumn = TableColumn(name: string, typ: string, notNull: bool, isInherited: bool)
  datatype TableIndex = TableIndex(
    name: string, typ: string, definition: string, columns: seq<string>, sizeBytes: nat,
    isUnique: bool, isPrimary: bool, isExclusion: bool, isPartial: bool, isValid: bool, isInherited: bool)
  datatype TableConstraint = TableConstraint(
    name: string, typ: string, foreignTable: string, definition: string,
    localColumns: seq<string>, foreignColumns: seq<string>)
  datatype InheritanceRelation = InheritanceRelation(name: string, oid: nat)

  datatype Table = Table(
    name: string, schema: string, owner: string, comment: Option<string>,
    columns: seq<TableColumn>, indexes: seq<TableIndex>, constraints: seq<TableConstraint>,
    parentTables: seq<InheritanceRelation>, stats: TableStats, oid: nat)

  const ZERO_TABLE := Table("", "", "", None, [], [], [], [], TableStats(0, 0, 0, 0), 0)

  // ---------- json.Unmarshal, field by field ----------

  function OrEmpty<A>(xs: Option<seq<A>>): seq<A> { if xs.Some? then xs.value else [] }
  function OrZero(n: Option<nat>): nat { if n.Some? then n.value else 0 }

  function DecodeStats(j: StatsJson): TableStats {
    TableStats(j.rowEstimate, OrZero(j.totalSizeBytes), OrZero(j.heapSizeBytes), OrZero(j.toastSizeBytes))
  }

  function DecodeColumn(j: ColumnJson): TableColumn {
    TableColumn(j.name, j.typ, j.notNull, j.isInherited)
  }

  function DecodeIndex(j: IndexJson): TableIndex {
    TableIndex(j.name, j.typ, j.definition, OrEmpty(j.columns), OrZero(j.sizeBytes),
               j.isUnique, j.isPrimary, j.isExclusion, j.isPartial, j.isValid, j.isInherited)
  }

  function DecodeConstraint(j: ConstraintJson): TableConstraint {
    TableConstraint(j.name, OrEmpty(j.typ), OrEmpty(j.foreignTable), j.definition, OrEmpty(j.localColumns),
        OrEmpty(j.foreignColumns))
  }

  function DecodeParent(j: ParentJson): InheritanceRelation {
    InheritanceRelation(j.name, j.oid)
  }

  /** The table a query row stands for. */
  function DecodeTable(row: QueryRow): Table {
    Table(row.name, row.schema, row.owner, row.comment,
          Project(OrEmpty(row.columns), DecodeColumn),
          Project(OrEmpty(row.indexes), DecodeIndex),
          Project(OrEmpty(row.constraints), DecodeConstraint),
          Project(OrEmpty(row.parentTables), DecodeParent),
          DecodeStats(row.stats), row.oid)
  }

  // ---------- the loop ----------

  /** What the table worker's row loop sees of a script over query rows; `Bad` is a failed scan or unmarshal. */
  function DecodeScanned(s: Scanned<QueryRow>): Scanned<Table> {
    match s case Good(row) => Good(DecodeTable(row)) case Bad => Bad
  }

  function DecodeScript(script: Script<QueryRow>): Script<Table> {
    match script
    case NoConnection => NoConnection
    case NoQuery => NoQuery
    case Delivers(rows, iterationOk) => Delivers(Project(rows, DecodeScanned), iterationOk)
  }

  /** Every row scans and unmarshals. */
  predicate AllGood<R>(rows: seq<Scanned<R>>) {
    forall i | 0 <= i < |rows| :: rows[i].Good?
  }

  /**
    What the table worker owes once it has its permit, said about the rows as
    they arrive: the table of every row, in order, under its own database, if
    everything worked; otherwise the first thing that went wrong.
   */
  ghost predicate IsTablesAnswer(dbName: string, script: Script<QueryRow>, res: Fetched<Table>) {
    && (res.Rows? <==> script.Delivers? && script.iterationOk && AllGood(script.rows))
    && (res.Rows? ==>
          && |res.items| == 1 && res.items[0].TablesInfo? && res.items[0].database == dbName
          && |res.items[0].tables| == |script.rows|
          && forall i | 0 <= i < |script.rows| :: res.items[0].tables[i] == DecodeTable(script.rows[i].row))
    && (forall at: nat :: res == Failed(RowFailed(at)) <==>
          && script.Delivers? && at < |script.rows| && script.rows[at].Bad?
          && forall i | 0 <= i < at :: script.rows[i].Good?)
    && (res == Failed(IterationFailed) <==> script.Delivers? && AllGood(script.rows) && !script.iterationOk)
    && (res == Failed(ConnectFailed) <==> script.NoConnection?)
    && (res == Failed(QueryFailed) <==> script.NoQuery?)
    && res != Failed(AcquireFailed)
  }

  /** A worker of the machine that runs on the decoded script answers so too. */
  lemma DecodedFetchAnswers(dbName: string, script: Script<QueryRow>)
    ensures IsTablesAnswer(dbName, script, Fetch(Tables, dbName, DecodeScript(script)))
  {
    FetchAccountsForEveryRow(Tables, dbName, DecodeScript(script));
    if script.Delivers? {
      var decoded := Project(script.rows, DecodeScanned);
      assert forall i | 0 <= i < |decoded| :: decoded[i].Good? <==> script.rows[i].Good?;
    }
  }

  /** One row: a zero table whose fields are scanned, then unmarshalled where the document is not NULL. */
  method DecodeRow(row: QueryRow) returns (table: Table)
    ensures table == DecodeTable(row)
  {
    table := ZERO_TABLE;
    table := table.(oid := row.oid, name := row.name, schema := row.schema, owner := row.owner, comment := row.comment);
    table := table.(stats := DecodeStats(row.stats));
    if row.columns.Some? {
      table := table.(columns := Project(row.columns.value, DecodeColumn));
    }
    if row.indexes.Some? {
      table := table.(indexes := Project(row.indexes.value, DecodeIndex));
    }
    if row.constraints.Some? {
      table := table.(constraints := Project(row.constraints.value, DecodeConstraint));
    }
    if row.parentTables.Some? {
      table := table.(parentTables := Project(row.parentTables.value, DecodeParent));
    }
  }

  /** The loop over the rows: one `TablesInfo` with every table, or the first failure. */
  method ScanTables(dbName: string, rows: seq<Scanned<QueryRow>>, iterationOk: bool) returns (res: Fetched<Table>)
    ensures IsTablesAnswer(dbName, Delivers(rows, iterationOk), res)
    ensures res == Fetch(Tables, dbName, DecodeScript(Delivers(rows, iterationOk)))
  {
    DecodedFetchAnswers(dbName, Delivers(rows, iterationOk));
    ghost var decoded := Project(rows, DecodeScanned);
    var tables: seq<Table> := [];
    var next := 0;
    while next < |rows|
      invariant 0 <= next <= |rows|
      invariant forall i | 0 <= i < next :: decoded[i].Good?
      invariant tables == Values(decoded[..next])
    {
      match rows[next]
      case Bad =>
        return Failed(RowFailed(next));
      case Good(row) =>
        var table := DecodeRow(row);
        assert decoded[next] == Good(table);
        ValuesExtend(decoded, next);
        tables := tables + [table];
        next := next + 1;
    }
    if !iterationOk {
      return Failed(IterationFailed);
    }
    assert decoded[..next] == decoded;
    return Rows([TablesInfo(dbName, tables)]);
  }

  /** A worker that does not block is refused by its done context or does its work and answers. */
  ghost predicate AnswersOrRefused(
    ctxDone: bool, dbName: string, script: Script<QueryRow>, res: Option<Fetched<Table>>, trace: seq<Event>)
  {
    res.Some? ==>
      || (res.value == Failed(AcquireFailed) && ctxDone && trace == [])
      || (IsTablesAnswer(dbName, script, res.value) && trace == FullTrace(script))
  }

  /** The fifth worker: the same protocol around the table loop. */
  method ListTablesForDatabase(c: ConnectionCoordinator, ctxDone: bool, dbName: string, script: Script<QueryRow>)
    returns (res: Option<Fetched<Table>>, trace: seq<Event>)
    requires c.Valid()
    modifies c, c.made
    ensures c.Valid() && c.View() == old(c.View()).Intern(dbName)
    ensures RanAlone(
      old(c.View()), ctxDone, dbName, Fetch(Tables, dbName, DecodeScript(script)), FullTrace(script), res, trace)
    ensures AnswersOrRefused(ctxDone, dbName, script, res, trace)
  {
    ghost var ready := old(c.View()).Intern(dbName);
    var permit := c.Acquire(ctxDone, dbName);
    match permit
    case AcquireBlocked =>
      res, trace := None, [];
    case Cancelled =>
      res, trace := Some(Failed(AcquireFailed)), [];
    case Granted =>
      assert c.made == old(c.made) + c.made[|old(c.made)|..];
      var stop, defers := OpenRows(script);
      var fetched;
      if stop.Some? {
        fetched := Failed(stop.value);
      } else {
        fetched := ScanTables(dbName, script.rows, script.iterationOk);
      }
      var undone := RunDeferred(c, dbName, defers, ready);
      res, trace := Some(fetched), Openings(defers) + undone;
      DecodedFetchAnswers(dbName, script);
  }
}
