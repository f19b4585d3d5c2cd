/**
  `queryTables`, operator by operator: the common table expressions, the joins,
  the groupings and the aggregates of the SQL text.

  SQL does not say in which order rows reach an aggregate or a sort.  An
  `Executor` stands for whatever the database does: it reorders each
  intermediate relation, and everything below is proved for every executor.
 */
module TablesQuery {
  import opened Wrappers
  import opened Sql
  import opened Text
  import opened Catalog

  // ---------- what the query returns ----------

  datatype StatsJson = StatsJson(rowEstimate: int, totalSizeBytes: Option<nat>, heapSizeBytes: Option<nat>,
      toastSizeBytes: Option<nat>)

  datatype ColumnJson = ColumnJson(name: string, typ: string, notNull: bool, isInherited: bool)

  datatype IndexJson = IndexJson(
    name: string, typ: string, columns: Option<seq<string>>,
    isUnique: bool, isPrimary: bool, isExclusion: bool, isPartial: bool, isValid: bool, isInherited: bool,
    sizeBytes: Option<nat>, definition: string)

  datatype ConstraintJson = ConstraintJson(
    name: string, typ: Option<string>, localColumns: Option<seq<string>>,
    foreignTable: Option<string>, foreignColumns: Option<seq<string>>, definition: string)

  datatype ParentJson = ParentJson(oid: nat, name: string)

  datatype QueryRow = QueryRow(
    oid: nat, name: string, schema: string, owner: string, comment: Option<string>,
    stats: StatsJson, columns: Option<seq<ColumnJson>>, indexes: Option<seq<IndexJson>>,
    constraints: Option<seq<ConstraintJson>>, parentTables: Option<seq<ParentJson>>)

  // ---------- intermediate rows ----------

  datatype KeyRow = KeyRow(indexrelid: nat, indrelid: nat, n: nat, attname: string)
  datatype IndexColumns = IndexColumns(indexrelid: nat, indrelid: nat, columns: seq<string>)
  datatype IndexRow = IndexRow(tableOid: nat, indexOid: nat, json: IndexJson)
  datatype IndexAgg = IndexAgg(tableOid: nat, indexes: seq<IndexJson>)
  datatype ConstraintAgg = ConstraintAgg(conrelid: nat, constraints: seq<ConstraintJson>)
  datatype InheritanceAgg = InheritanceAgg(tableOid: nat, parentTables: seq<ParentJson>)
  datatype NamedKey = NamedKey(n: nat, attname: string)

  datatype IndexAndClass = IndexAndClass(ix: PgIndex, idx: PgClass)
  datatype IndexAndTable = IndexAndTable(ix: PgIndex, idx: PgClass, tbl: PgClass)
  datatype IndexAndAm = IndexAndAm(ix: PgIndex, idx: PgClass, tbl: PgClass, am: PgAm)
  datatype IndexAndNames = IndexAndNames(ix: PgIndex, idx: PgClass, tbl: PgClass, am: PgAm, ic: Option<IndexColumns>)

  datatype ClassAndNamespace = ClassAndNamespace(c: PgClass, n: PgNamespace)
  datatype ClassAndIndexes = ClassAndIndexes(c: PgClass, n: PgNamespace, ia: Option<IndexAgg>)
  datatype ClassAndConstraints = ClassAndConstraints(c: PgClass, n: PgNamespace, ia: Option<IndexAgg>,
      cd: Option<ConstraintAgg>)
  datatype ClassAndParents = ClassAndParents(c: PgClass, n: PgNamespace, ia: Option<IndexAgg>,
      cd: Option<ConstraintAgg>, ip: Option<InheritanceAgg>)

  /** The physical order in which rows arrive at each aggregate and at the final sort. */
  datatype Executor = Executor(
    keyRows: seq<KeyRow> -> seq<KeyRow>,
    namedKeys: seq<NamedKey> -> seq<NamedKey>,
    attributes: seq<PgAttribute> -> seq<PgAttribute>,
    indexRows: seq<IndexRow> -> seq<IndexRow>,
    constraints: seq<PgConstraint> -> seq<PgConstraint>,
    inherits: seq<PgInherits> -> seq<PgInherits>,
    output: seq<QueryRow> -> seq<QueryRow>)

  /** An executor may reorder rows, and may do nothing else. */
  ghost predicate OnlyReorders(e: Executor) {
    && (forall xs :: Permuted(e.keyRows(xs), xs))
    && (forall xs :: Permuted(e.namedKeys(xs), xs))
    && (forall xs :: Permuted(e.attributes(xs), xs))
    && (forall xs :: Permuted(e.indexRows(xs), xs))
    && (forall xs :: Permuted(e.constraints(xs), xs))
    && (forall xs :: Permuted(e.inherits(xs), xs))
    && (forall xs :: Permuted(e.output(xs), xs))
  }

  // ---------- UNNEST ... WITH ORDINALITY ----------

  datatype Slot = Slot(attnum: int, n: nat)

  function Unnest(keys: seq<int>): (slots: seq<Slot>)
    ensures |slots| == |keys|
    ensures forall i | 0 <= i < |keys| :: slots[i] == Slot(keys[i], i + 1)
  {
    seq(|keys|, i requires 0 <= i < |keys| => Slot(keys[i], i + 1))
  }

  function SlotOf(relid: nat): (Slot, PgAttribute) -> bool {
    (slot: Slot, a: PgAttribute) => a.attrelid == relid && a.attnum == slot.attnum
  }

  // ---------- index_column_names ----------

  function ToKeyRow(ix: PgIndex): (Slot, PgAttribute) -> KeyRow {
    (slot: Slot, a: PgAttribute) => KeyRow(ix.indexrelid, ix.indrelid, slot.n, a.attname)
  }

  function KeyRowsOf(cat: Catalog, ix: PgIndex): seq<KeyRow> {
    Join(Unnest(ix.indkey), cat.attributes, SlotOf(ix.indrelid), ToKeyRow(ix))
  }

  function KeyRows(cat: Catalog, ixs: seq<PgIndex>): seq<KeyRow> {
    if ixs == [] then [] else KeyRowsOf(cat, ixs[0]) + KeyRows(cat, ixs[1..])
  }

  function KeyRowGroup(r: KeyRow): (nat, nat) { (r.indexrelid, r.indrelid) }
  predicate KeyRowLe(a: KeyRow, b: KeyRow) { a.n <= b.n }
  function KeyRowName(r: KeyRow): string { r.attname }

  function AggregateColumns(key: (nat, nat), rows: seq<KeyRow>): IndexColumns {
    IndexColumns(key.0, key.1, Project(OrderBy(rows, KeyRowLe), KeyRowName))
  }

  function IndexColumnNames(cat: Catalog, e: Executor): seq<IndexColumns> {
    GroupBy(e.keyRows(KeyRows(cat, cat.indexes)), KeyRowGroup, AggregateColumns)
  }

  // ---------- index_data ----------

  predicate OnIndexClass(ix: PgIndex, idx: PgClass) { idx.oid == ix.indexrelid && idx.relkind in {'i', 'I'} }
  predicate OnTable(r: IndexAndClass, tbl: PgClass) { tbl.oid == r.ix.indrelid }
  predicate OnAm(r: IndexAndTable, am: PgAm) { am.oid == r.idx.relam }
  predicate OnIndexNames(r: IndexAndAm, ic: IndexColumns) { ic.indexrelid == r.ix.indexrelid }

  function ToIndexAndClass(ix: PgIndex, idx: PgClass): IndexAndClass { IndexAndClass(ix, idx) }
  function ToIndexAndTable(r: IndexAndClass, tbl: PgClass): IndexAndTable { IndexAndTable(r.ix, r.idx, tbl) }
  function ToIndexAndAm(r: IndexAndTable, am: PgAm): IndexAndAm { IndexAndAm(r.ix, r.idx, r.tbl, am) }

  function ToIndexAndNames(r: IndexAndAm, ic: Option<IndexColumns>): IndexAndNames {
    IndexAndNames(r.ix, r.idx, r.tbl, r.am, ic)
  }

  /** The EXISTS over namespaces; `early` says whether the filter is there at all. */
  function InUserSchema(cat: Catalog, early: bool): IndexAndNames -> bool {
    (r: IndexAndNames) => early ==> exists n | n in cat.namespaces ::
        n.oid == r.tbl.relnamespace && UserSchema(n.nspname)
  }

  predicate IsInheritedIndex(cat: Catalog, indexrelid: nat) {
    exists inh | inh in cat.inherits :: inh.inhrelid == indexrelid
  }

  function ToIndexRow(cat: Catalog): IndexAndNames -> IndexRow {
    (r: IndexAndNames) => IndexRow(r.ix.indrelid, r.ix.indexrelid, IndexJson(
      r.idx.relname, r.am.amname, if r.ic.Some? then Some(r.ic.value.columns) else None,
      r.ix.indisunique, r.ix.indisprimary, r.ix.indisexclusion, r.ix.indpred.Some?, r.ix.indisvalid,
      IsInheritedIndex(cat, r.ix.indexrelid),
      cat.pg.relationSize(r.ix.indexrelid), cat.pg.indexDef(r.ix.indexrelid)))
  }

  function IndexDataFrom(cat: Catalog, names: seq<IndexColumns>, early: bool, ixs: seq<PgIndex>): seq<IndexRow> {
    var r1 := Join(ixs, cat.classes, OnIndexClass, ToIndexAndClass);
    var r2 := Join(r1, cat.classes, OnTable, ToIndexAndTable);
    var r3 := Join(r2, cat.ams, OnAm, ToIndexAndAm);
    var r4 := LeftJoin(r3, names, OnIndexNames, ToIndexAndNames);
    Project(Where(r4, InUserSchema(cat, early)), ToIndexRow(cat))
  }

  function IndexData(cat: Catalog, e: Executor, early: bool): seq<IndexRow> {
    IndexDataFrom(cat, IndexColumnNames(cat, e), early, cat.indexes)
  }

  // ---------- index_agg ----------

  function IndexRowTable(r: IndexRow): nat { r.tableOid }
  function IndexRowJson(r: IndexRow): IndexJson { r.json }

  function AggregateIndexes(table: nat, rows: seq<IndexRow>): IndexAgg {
    IndexAgg(table, Project(rows, IndexRowJson))
  }

  function IndexAggs(cat: Catalog, e: Executor, early: bool): seq<IndexAgg> {
    GroupBy(e.indexRows(IndexData(cat, e, early)), IndexRowTable, AggregateIndexes)
  }

  // ---------- constraint_data ----------

  function ConstraintKind(contype: char): Option<string> {
    if contype == 'p' then Some("primary_key")
    else if contype == 'u' then Some("unique")
    else if contype == 'f' then Some("foreign_key")
    else if contype == 'c' then Some("check")
    else if contype == 'x' then Some("exclusion")
    else None
  }

  predicate ListedKind(con: PgConstraint) { con.contype in {'p', 'u', 'f', 'c', 'x'} }

  function ToNamedKey(slot: Slot, a: PgAttribute): NamedKey { NamedKey(slot.n, a.attname) }
  predicate NamedKeyLe(a: NamedKey, b: NamedKey) { a.n <= b.n }
  function NamedKeyName(k: NamedKey): string { k.attname }

  /** A NULL array unnests to no rows, and an aggregate over no rows is NULL. */
  function NamedKeys(cat: Catalog, relid: nat, keys: Option<seq<int>>): seq<NamedKey> {
    Join(Unnest(if keys.Some? then keys.value else []), cat.attributes, SlotOf(relid), ToNamedKey)
  }

  function ArrayAggNames(cat: Catalog, e: Executor, relid: nat, keys: Option<seq<int>>): Option<seq<string>> {
    var rows := e.namedKeys(NamedKeys(cat, relid, keys));
    if rows == [] then None else Some(Project(OrderBy(rows, NamedKeyLe), NamedKeyName))
  }

  function ToConstraintJson(cat: Catalog, e: Executor): PgConstraint -> ConstraintJson {
    (con: PgConstraint) => ConstraintJson(
      con.conname, ConstraintKind(con.contype),
      ArrayAggNames(cat, e, con.conrelid, con.conkey),
      if con.contype == 'f' then Some(cat.pg.regclassText(con.confrelid)) else None,
      if con.contype == 'f' then ArrayAggNames(cat, e, con.confrelid, con.confkey) else None,
      cat.pg.constraintDef(con.oid))
  }

  function ConstraintTable(con: PgConstraint): nat { con.conrelid }

  function AggregateConstraints(cat: Catalog, e: Executor): (nat, seq<PgConstraint>) -> ConstraintAgg {
    (table: nat, rows: seq<PgConstraint>) => ConstraintAgg(table, Project(rows, ToConstraintJson(cat, e)))
  }

  function ConstraintData(cat: Catalog, e: Executor): seq<ConstraintAgg> {
    GroupBy(e.constraints(Where(cat.constraints, ListedKind)), ConstraintTable, AggregateConstraints(cat, e))
  }

  // ---------- inheritance_parents ----------

  function InheritsChild(i: PgInherits): nat { i.inhrelid }
  predicate InheritsLe(a: PgInherits, b: PgInherits) { a.inhseqno <= b.inhseqno }

  function ToParentJson(cat: Catalog): PgInherits -> ParentJson {
    (i: PgInherits) => ParentJson(i.inhparent, cat.pg.regclassText(i.inhparent))
  }

  function AggregateParents(cat: Catalog): (nat, seq<PgInherits>) -> InheritanceAgg {
    (table: nat, rows: seq<PgInherits>) => InheritanceAgg(table, Project(OrderBy(rows, InheritsLe), ToParentJson(cat)))
  }

  function InheritanceParents(cat: Catalog, e: Executor): seq<InheritanceAgg> {
    GroupBy(e.inherits(cat.inherits), InheritsChild, AggregateParents(cat))
  }

  // ---------- the outer query ----------

  predicate OnNamespace(c: PgClass, n: PgNamespace) { n.oid == c.relnamespace }
  predicate OnIndexAgg(r: ClassAndNamespace, ia: IndexAgg) { ia.tableOid == r.c.oid }
  predicate OnConstraintAgg(r: ClassAndIndexes, cd: ConstraintAgg) { cd.conrelid == r.c.oid }
  predicate OnInheritanceAgg(r: ClassAndConstraints, ip: InheritanceAgg) { ip.tableOid == r.c.oid }

  function ToClassAndNamespace(c: PgClass, n: PgNamespace): ClassAndNamespace { ClassAndNamespace(c, n) }

  function ToClassAndIndexes(r: ClassAndNamespace, ia: Option<IndexAgg>): ClassAndIndexes {
    ClassAndIndexes(r.c, r.n, ia)
  }

  function ToClassAndConstraints(r: ClassAndIndexes, cd: Option<ConstraintAgg>): ClassAndConstraints {
    ClassAndConstraints(r.c, r.n, r.ia, cd)
  }

  function ToClassAndParents(r: ClassAndConstraints, ip: Option<InheritanceAgg>): ClassAndParents {
    ClassAndParents(r.c, r.n, r.ia, r.cd, ip)
  }

  predicate Listed(r: ClassAndParents) { r.c.relkind in {'r', 'p'} && UserSchema(r.n.nspname) }

  predicate AttributeLe(a: PgAttribute, b: PgAttribute) { a.attnum <= b.attnum }

  function LiveColumn(oid: nat): PgAttribute -> bool {
    (a: PgAttribute) => a.attrelid == oid && a.attnum > 0 && !a.attisdropped
  }

  function ToColumnJson(cat: Catalog): PgAttribute -> ColumnJson {
    (a: PgAttribute) => ColumnJson(a.attname, cat.pg.formatType(a.atttypid, a.atttypmod), a.attnotnull,
        a.attinhcount > 0)
  }

  function ColumnsSubquery(cat: Catalog, e: Executor, oid: nat): Option<seq<ColumnJson>> {
    var rows := e.attributes(Where(cat.attributes, LiveColumn(oid)));
    if rows == [] then None else Some(Project(OrderBy(rows, AttributeLe), ToColumnJson(cat)))
  }

  function Stats(cat: Catalog, c: PgClass): StatsJson {
    var toast := cat.pg.relationSize(c.reltoastrelid);
    StatsJson(c.reltuples, cat.pg.totalRelationSize(c.oid), cat.pg.relationSize(c.oid),
              if toast.Some? then toast else Some(0))
  }

  function ToQueryRow(cat: Catalog, e: Executor): ClassAndParents -> QueryRow {
    (r: ClassAndParents) => QueryRow(
      r.c.oid, r.c.relname, r.n.nspname, cat.pg.userById(r.c.relowner), cat.pg.objDescription(r.c.oid),
      Stats(cat, r.c), ColumnsSubquery(cat, e, r.c.oid),
      if r.ia.Some? then Some(r.ia.value.indexes) else None,
      if r.cd.Some? then Some(r.cd.value.constraints) else None,
      if r.ip.Some? then Some(r.ip.value.parentTables) else None)
  }

  function RowsFrom(
    cat: Catalog, e: Executor, ias: seq<IndexAgg>, cds: seq<ConstraintAgg>, ips: seq<InheritanceAgg>,
    classes: seq<PgClass>): seq<QueryRow>
  {
    var r1 := Join(classes, cat.namespaces, OnNamespace, ToClassAndNamespace);
    var r2 := LeftJoin(r1, ias, OnIndexAgg, ToClassAndIndexes);
    var r3 := LeftJoin(r2, cds, OnConstraintAgg, ToClassAndConstraints);
    var r4 := LeftJoin(r3, ips, OnInheritanceAgg, ToClassAndParents);
    Project(Where(r4, Listed), ToQueryRow(cat, e))
  }

  predicate RowLe(a: QueryRow, b: QueryRow) {
    PairLe(a.schema, a.name, b.schema, b.name)
  }

  /** The query; `early` says whether `index_data` carries its own schema filter, as the source's does. */
  function TablesWith(cat: Catalog, e: Executor, early: bool): seq<QueryRow> {
    OrderBy(
      e.output(RowsFrom(cat, e, IndexAggs(cat, e, early), ConstraintData(cat, e), InheritanceParents(cat, e),
          cat.classes)),
      RowLe)
  }

  function QueryTables(cat: Catalog, e: Executor): seq<QueryRow> {
    TablesWith(cat, e, true)
  }
}
