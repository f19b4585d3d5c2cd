/** `tableToProto` and the `ListTables` handler: the append loops that build the response. */
module Server {
  import opened Wrappers
  import opened Workers
  import opened FanOut
  import opened Sql
  import opened TableRows

  datatype ProtoColumn = ProtoColumn(name: string, typ: string, notNull: bool, isInherited: bool)
  datatype ProtoIndex = ProtoIndex(
    name: string, typ: string, columns: seq<string>,
    isUnique: bool, isPrimary: bool, isExclusion: bool, isPartial: bool, isValid: bool, isInherited: bool,
    sizeBytes: nat, definition: string)
  datatype ProtoConstraint = ProtoConstraint(
    name: string, typ: string, localColumns: seq<string>, foreignTable: Option<string>,
    foreignColumns: seq<string>, definition: string)
  datatype ProtoParent = ProtoParent(name: string, oid: nat)
  datatype ProtoStats = ProtoStats(rowEstimate: int, totalSizeBytes: nat, heapSizeBytes: nat, toastSizeBytes: nat)

  datatype ProtoTable = ProtoTable(
    oid: nat, name: string, schema: string, owner: string, comment: Option<string>,
    stats: ProtoStats, columns: seq<ProtoColumn>, indexes: seq<ProtoIndex>,
    constraints: seq<ProtoConstraint>, parentTables: seq<ProtoParent>)

  datatype DatabaseTables = DatabaseTables(database: string, tables: seq<ProtoTable>)

  // ---------- what the conversion is, element by element ----------

  function ColumnProto(c: TableColumn): ProtoColumn {
    ProtoColumn(c.name, c.typ, c.notNull, c.isInherited)
  }

  function IndexProto(i: TableIndex): ProtoIndex {
    ProtoIndex(i.name, i.typ, i.columns, i.isUnique, i.isPrimary, i.isExclusion, i.isPartial, i.isValid, i.isInherited,
               i.sizeBytes, i.definition)
  }

  /** The optional field is set only when the text is not empty. */
  function ConstraintProto(c: TableConstraint): ProtoConstraint {
    ProtoConstraint(c.name, c.typ, c.localColumns, if c.foreignTable != "" then Some(c.foreignTable) else None,
                    c.foreignColumns, c.definition)
  }

  function ParentProto(p: InheritanceRelation): ProtoParent {
    ProtoParent(p.name, p.oid)
  }

  function StatsProto(s: TableStats): ProtoStats {
    ProtoStats(s.rowEstimate, s.totalSizeBytes, s.heapSizeBytes, s.toastSizeBytes)
  }

  function TableProto(t: Table): ProtoTable {
    ProtoTable(t.oid, t.name, t.schema, t.owner, t.comment, StatsProto(t.stats),
               Project(t.columns, ColumnProto), Project(t.indexes, IndexProto),
               Project(t.constraints, ConstraintProto), Project(t.parentTables, ParentProto))
  }

  function InfoProto(info: Item<Table>): DatabaseTables {
    match info
    case TablesInfo(database, tables) => DatabaseTables(database, Project(tables, TableProto))
    case Tagged(database, table) => DatabaseTables(database, [TableProto(table)])
  }

  // ---------- the loops ----------

  method TableToProto(t: Table) returns (proto: ProtoTable)
    ensures proto == TableProto(t)
  {
    var columns: seq<ProtoColumn> := [];
    for i := 0 to |t.columns|
      invariant columns == Project(t.columns[..i], ColumnProto)
    {
      var col := t.columns[i];
      columns := columns + [ProtoColumn(col.name, col.typ, col.notNull, col.isInherited)];
    }

    var indexes: seq<ProtoIndex> := [];
    for i := 0 to |t.indexes|
      invariant indexes == Project(t.indexes[..i], IndexProto)
    {
      var idx := t.indexes[i];
      indexes := indexes + [ProtoIndex(
        idx.name, idx.typ, idx.columns, idx.isUnique, idx.isPrimary, idx.isExclusion, idx.isPartial, idx.isValid,
        idx.isInherited, idx.sizeBytes, idx.definition)];
    }

    var constraints: seq<ProtoConstraint> := [];
    for i := 0 to |t.constraints|
      invariant constraints == Project(t.constraints[..i], ConstraintProto)
    {
      var con := t.constraints[i];
      var pc := ProtoConstraint(con.name, con.typ, con.localColumns, None, con.foreignColumns, con.definition);
      if con.foreignTable != "" {
        pc := pc.(foreignTable := Some(con.foreignTable));
      }
      constraints := constraints + [pc];
    }

    var parentTables: seq<ProtoParent> := [];
    for i := 0 to |t.parentTables|
      invariant parentTables == Project(t.parentTables[..i], ParentProto)
    {
      var parent := t.parentTables[i];
      parentTables := parentTables + [ProtoParent(parent.name, parent.oid)];
    }

    assert t.columns[..|t.columns|] == t.columns && t.indexes[..|t.indexes|] == t.indexes;
    assert t.constraints[..|t.constraints|] == t.constraints && t.parentTables[..|t.parentTables|] == t.parentTables;
    proto := ProtoTable(
      t.oid, t.name, t.schema, t.owner, t.comment,
      ProtoStats(t.stats.rowEstimate, t.stats.totalSizeBytes, t.stats.heapSizeBytes, t.stats.toastSizeBytes),
      columns, indexes, constraints, parentTables);
  }

  method TablesToProto(tables: seq<Table>) returns (protos: seq<ProtoTable>)
    ensures protos == Project(tables, TableProto)
  {
    protos := [];
    for i := 0 to |tables|
      invariant protos == Project(tables[..i], TableProto)
    {
      var proto := TableToProto(tables[i]);
      protos := protos + [proto];
    }
    assert tables[..|tables|] == tables;
  }

  /** The handler: an error of the store becomes an error of the RPC, otherwise one entry per `TablesInfo`, in order. */
  method ListTables(stored: FanIn<Table>) returns (response: Option<seq<DatabaseTables>>)
    requires stored.Aggregated? ==> forall info | info in stored.items :: info.TablesInfo?
    ensures response == if stored.PartlyFailed? then None else Some(Project(stored.items, InfoProto))
  {
    if stored.PartlyFailed? {
      return None;
    }
    var databaseTables: seq<DatabaseTables> := [];
    for i := 0 to |stored.items|
      invariant databaseTables == Project(stored.items[..i], InfoProto)
    {
      var dbTables := stored.items[i];
      var tables := TablesToProto(dbTables.tables);
      databaseTables := databaseTables + [DatabaseTables(dbTables.database, tables)];
    }
    assert stored.items[..|stored.items|] == stored.items;
    return Some(databaseTables);
  }
}
