/** From catalog rows to the gRPC response of `ListTables`, across all databases and all interleavings. */
module EndToEnd {
  import opened Wrappers
  import opened Workers
  import opened FanOut
  import opened Machine
  import opened Outcomes
  import opened Sql
  import opened Text
  import opened Catalog
  import opened TablesQuery
  import opened TablesSpec
  import opened KeyVectors
  import opened TablesProof
  import opened TablesTheorem
  import opened TableRows
  import opened Server

  // ---------- what the response should say about one table ----------

  function AttributeColumn(cat: Catalog): PgAttribute -> ProtoColumn {
    (a: PgAttribute) => ProtoColumn(a.attname, cat.pg.formatType(a.atttypid, a.atttypmod), a.attnotnull,
        a.attinhcount > 0)
  }

  function ParentOf(cat: Catalog): PgInherits -> ProtoParent {
    (i: PgInherits) => ProtoParent(cat.pg.regclassText(i.inhparent), i.inhparent)
  }

  /** The size of a relation that does not exist is 0. */
  function SizeSaid(size: Option<nat>): nat {
    match size case None => 0 case Some(bytes) => bytes
  }

  function IndexSaid(cat: Catalog, ix: PgIndex): ProtoIndex
    requires IndexResolves(cat, ix)
  {
    var own := FindClass(cat, ix.indexrelid).value;
    ProtoIndex(
      own.relname, FindAm(cat, own.relam).value.amname, NamedColumns(cat, ix.indrelid, ix.indkey),
      ix.indisunique, ix.indisprimary, ix.indisexclusion, ix.indpred.Some?, ix.indisvalid,
      exists inh | inh in cat.inherits :: inh.inhrelid == ix.indexrelid,
      SizeSaid(cat.pg.relationSize(ix.indexrelid)), cat.pg.indexDef(ix.indexrelid))
  }

  function IndexesSaid(cat: Catalog, oid: nat, ixs: seq<PgIndex>): seq<ProtoIndex>
    requires forall ix | ix in ixs :: IndexResolves(cat, ix)
  {
    if ixs == [] then []
    else (if ixs[0].indrelid == oid then [IndexSaid(cat, ixs[0])] else []) + IndexesSaid(cat, oid, ixs[1..])
  }

  function KindText(contype: char): string {
    if contype == 'p' then "primary_key"
    else if contype == 'u' then "unique"
    else if contype == 'f' then "foreign_key"
    else if contype == 'c' then "check"
    else "exclusion"
  }

  /** A foreign key names its table, unless its text is empty, and its columns there; no other constraint does. */
  function ConstraintSaid(cat: Catalog, con: PgConstraint): ProtoConstraint {
    var local := NamedColumns(cat, con.conrelid, KeysOrNone(con.conkey));
    if con.contype == 'f' then
      var table := cat.pg.regclassText(con.confrelid);
      ProtoConstraint(con.conname, "foreign_key", local, if table == "" then None else Some(table),
                      NamedColumns(cat, con.confrelid, KeysOrNone(con.confkey)), cat.pg.constraintDef(con.oid))
    else
      ProtoConstraint(con.conname, KindText(con.contype), local, None, [], cat.pg.constraintDef(con.oid))
  }

  function ConstraintsSaid(cat: Catalog, oid: nat, cons: seq<PgConstraint>): seq<ProtoConstraint> {
    if cons == [] then []
    else
      (if cons[0].conrelid == oid && cons[0].contype in {'p', 'u', 'f', 'c', 'x'}
       then [ConstraintSaid(cat, cons[0])] else [])
      + ConstraintsSaid(cat, oid, cons[1..])
  }

  /** The response's table says about class `c` exactly what the catalog says. */
  ghost predicate ProtoMatches(cat: Catalog, c: PgClass, p: ProtoTable)
    requires WellFormed(cat)
  {
    && p.oid == c.oid && p.name == c.relname && p.schema == SchemaOf(cat, c)
    && p.owner == cat.pg.userById(c.relowner) && p.comment == cat.pg.objDescription(c.oid)
    && p.stats == ProtoStats(
      c.reltuples, SizeSaid(cat.pg.totalRelationSize(c.oid)), SizeSaid(cat.pg.relationSize(c.oid)),
      SizeSaid(cat.pg.relationSize(c.reltoastrelid)))
    && (exists attributes ::
          && Lists(attributes, cat.attributes, ColumnOf(c.oid), AttributeNumber)
          && p.columns == Project(attributes, AttributeColumn(cat)))
    && (exists rows ::
          && Lists(rows, cat.inherits, ChildIs(c.oid), InheritsNumber)
          && p.parentTables == Project(rows, ParentOf(cat)))
    && Permuted(p.indexes, IndexesSaid(cat, c.oid, cat.indexes))
    && Permuted(p.constraints, ConstraintsSaid(cat, c.oid, cat.constraints))
  }

  // ---------- one element at a time ----------

  lemma ProjectThen<A, B, C>(xs: seq<A>, f: A -> B, g: B -> C, h: A -> C)
    requires forall x | x in xs :: g(f(x)) == h(x)
    ensures Project(Project(xs, f), g) == Project(xs, h)
  {
    assert forall i | 0 <= i < |xs| :: xs[i] in xs;
  }

  function ConstraintDecoded(j: ConstraintJson): ProtoConstraint { ConstraintProto(DecodeConstraint(j)) }
  function IndexDecoded(j: IndexJson): ProtoIndex { IndexProto(DecodeIndex(j)) }
  function ColumnDecoded(j: ColumnJson): ProtoColumn { ColumnProto(DecodeColumn(j)) }
  function ParentDecoded(j: ParentJson): ProtoParent { ParentProto(DecodeParent(j)) }

  lemma {:induction false} ConstraintsCarried(cat: Catalog, oid: nat, cons: seq<PgConstraint>)
    ensures Project(TableConstraints(cat, oid, cons), ConstraintDecoded) == ConstraintsSaid(cat, oid, cons)
  {
    if cons != [] {
      ConstraintsCarried(cat, oid, cons[1..]);
      var head := if cons[0].conrelid == oid && ListedKind(cons[0]) then [ConstraintEntry(cat, cons[0])] else [];
      assert head != [] ==> ConstraintDecoded(ConstraintEntry(cat, cons[0])) == ConstraintSaid(cat, cons[0]);
      ProjectAppend(head, TableConstraints(cat, oid, cons[1..]), ConstraintDecoded);
    }
  }

  lemma {:induction false} IndexesCarried(cat: Catalog, oid: nat, ixs: seq<PgIndex>)
    requires forall ix | ix in ixs :: IndexResolves(cat, ix)
    ensures Project(TableIndexes(cat, oid, ixs), IndexDecoded) == IndexesSaid(cat, oid, ixs)
  {
    if ixs != [] {
      IndexesCarried(cat, oid, ixs[1..]);
      var head := if ixs[0].indrelid == oid then [IndexEntry(cat, ixs[0])] else [];
      ProjectAppend(head, TableIndexes(cat, oid, ixs[1..]), IndexDecoded);
      assert Project(head, IndexDecoded) == if ixs[0].indrelid == oid then [IndexSaid(cat, ixs[0])] else [];
    }
  }

  lemma BagCarried<A, B>(agg: Option<seq<A>>, xs: seq<A>, f: A -> B)
    requires SomeOrderOf(agg, xs)
    ensures Permuted(Project(OrEmpty(agg), f), Project(xs, f))
  {
    ProjectPermuted(OrEmpty(agg), xs, f);
  }

  lemma ColumnsCarried(cat: Catalog, oid: nat, columns: Option<seq<ColumnJson>>) returns (attributes: seq<PgAttribute>)
    requires ColumnsMatch(cat, oid, columns)
    ensures Lists(attributes, cat.attributes, ColumnOf(oid), AttributeNumber)
    ensures Project(OrEmpty(columns), ColumnDecoded) == Project(attributes, AttributeColumn(cat))
  {
    attributes :| Lists(attributes, cat.attributes, ColumnOf(oid), AttributeNumber)
                  && columns == NullIfEmpty(Project(attributes, ToColumnJson(cat)));
    ProjectThen(attributes, ToColumnJson(cat), ColumnDecoded, AttributeColumn(cat));
  }

  lemma ParentsCarried(cat: Catalog, oid: nat, parents: Option<seq<ParentJson>>) returns (rows: seq<PgInherits>)
    requires ParentsMatch(cat, oid, parents)
    ensures Lists(rows, cat.inherits, ChildIs(oid), InheritsNumber)
    ensures Project(OrEmpty(parents), ParentDecoded) == Project(rows, ParentOf(cat))
  {
    rows :| Lists(rows, cat.inherits, ChildIs(oid), InheritsNumber)
            && parents == NullIfEmpty(Project(rows, ToParentJson(cat)));
    ProjectThen(rows, ToParentJson(cat), ParentDecoded, ParentOf(cat));
  }

  // ---------- one table ----------

  lemma TableCarried(cat: Catalog, c: PgClass, row: QueryRow)
    requires WellFormed(cat) && Eligible(cat, c) && RowMatches(cat, c, row)
    ensures ProtoMatches(cat, c, TableProto(DecodeTable(row)))
  {
    var p := TableProto(DecodeTable(row));
    ProjectThen(OrEmpty(row.columns), DecodeColumn, ColumnProto, ColumnDecoded);
    ProjectThen(OrEmpty(row.indexes), DecodeIndex, IndexProto, IndexDecoded);
    ProjectThen(OrEmpty(row.constraints), DecodeConstraint, ConstraintProto, ConstraintDecoded);
    ProjectThen(OrEmpty(row.parentTables), DecodeParent, ParentProto, ParentDecoded);
    var attributes := ColumnsCarried(cat, c.oid, row.columns);
    var rows := ParentsCarried(cat, c.oid, row.parentTables);
    BagCarried(row.indexes, TableIndexes(cat, c.oid, cat.indexes), IndexDecoded);
    BagCarried(row.constraints, TableConstraints(cat, c.oid, cat.constraints), ConstraintDecoded);
    IndexesCarried(cat, c.oid, cat.indexes);
    ConstraintsCarried(cat, c.oid, cat.constraints);
    assert p.columns == Project(attributes, AttributeColumn(cat));
    assert p.parentTables == Project(rows, ParentOf(cat));
  }

  // ---------- one database ----------

  ghost predicate ProtoBefore(a: ProtoTable, b: ProtoTable) {
    && TextLe(a.schema, b.schema)
    && (a.schema == b.schema ==> TextLe(a.name, b.name) && a.name != b.name)
  }

  /** The listing of a database: its eligible tables, each once, strictly increasing by schema and name. */
  ghost predicate ListingMatches(cat: Catalog, tables: seq<ProtoTable>)
    requires WellFormed(cat)
  {
    && |tables| == |ListedTables(cat)|
    && (forall c :: c in ListedTables(cat) <==> c in cat.classes && Eligible(cat, c))
    && (forall i | 0 <= i < |tables| :: ProtoMatches(cat, ListedTables(cat)[i], tables[i]))
    && (forall i, j | 0 <= i < j < |tables| :: ProtoBefore(tables[i], tables[j]))
  }

  /** What the table worker's rows decode to on a database with this catalog. */
  function DecodedTables(cat: Catalog, e: Executor): seq<Table> {
    Project(QueryTables(cat, e), DecodeTable)
  }

  lemma DatabaseCarried(cat: Catalog, e: Executor)
    requires WellFormed(cat) && OnlyReorders(e)
    ensures ListingMatches(cat, Project(DecodedTables(cat, e), TableProto))
  {
    var rows := QueryTables(cat, e);
    var tables := Project(DecodedTables(cat, e), TableProto);
    QueryTablesIsCorrect(cat, e, true);
    forall i | 0 <= i < |tables| ensures ProtoMatches(cat, ListedTables(cat)[i], tables[i]) {
      TableCarried(cat, ListedTables(cat)[i], rows[i]);
    }
    forall i, j | 0 <= i < j < |tables| ensures ProtoBefore(tables[i], tables[j]) {
      assert RowBefore(rows[i], rows[j]);
    }
  }

  // ---------- all databases, every interleaving ----------

  function ScannedGood(row: QueryRow): Scanned<QueryRow> {
    Good(row)
  }

  /** The environment of a table worker whose query runs to its end on this catalog. */
  function TablesScript(cat: Catalog, e: Executor): Script<Table> {
    DecodeScript(Delivers(Project(QueryTables(cat, e), ScannedGood), true))
  }

  lemma TablesScriptValues(cat: Catalog, e: Executor)
    ensures TablesScript(cat, e).Delivers? && TablesScript(cat, e).iterationOk
    ensures forall i | 0 <= i < |TablesScript(cat, e).rows| :: TablesScript(cat, e).rows[i].Good?
    ensures Values(TablesScript(cat, e).rows) == DecodedTables(cat, e)
  {
  }

  lemma {:induction false} UnitBlocks<R>(items: seq<Item<R>>, cuts: seq<nat>, blocks: seq<seq<Item<R>>>, i: nat)
    requires |cuts| == |blocks| + 1 && cuts[0] == 0 && i <= |blocks|
    requires forall k | 0 <= k < |blocks| :: |blocks[k]| == 1 && IsBlock(items, cuts, k, blocks[k])
    ensures cuts[i] == i
  {
    if i > 0 {
      UnitBlocks(items, cuts, blocks, i - 1);
      assert IsBlock(items, cuts, i - 1, blocks[i - 1]);
    }
  }

  /** The `TablesInfo` a database contributes. */
  function EntryFor(plans: seq<Plan<Table>>, r: nat, cats: seq<Catalog>, execs: seq<Executor>, j: nat): Item<Table>
    requires r < |plans| && |cats| == |execs| == |plans[r].jobs| && j < |cats|
  {
    TablesInfo(plans[r].jobs[j].database, DecodedTables(cats[j], execs[j]))
  }

  /** Response `response`, read in arrival order `order`, answers for the databases of plan `r`. */
  ghost predicate Answers(
    plans: seq<Plan<Table>>, r: nat, cats: seq<Catalog>, order: seq<nat>, response: seq<DatabaseTables>)
    requires r < |plans| && |cats| == |plans[r].jobs|
    requires forall j | 0 <= j < |cats| :: WellFormed(cats[j])
  {
    && |response| == |order| == |cats|
    && (forall j: nat :: j in order <==> j < |cats|)
    && (forall i, j | 0 <= i < j < |order| :: order[i] != order[j])
    && (forall i | 0 <= i < |order| ::
          && order[i] < |cats|
          && response[i].database == plans[r].jobs[order[i]].database
          && ListingMatches(cats[order[i]], response[i].tables))
  }

  /** Blocks of one item each are the items. */
  lemma UnitBlocksAreItems<R>(items: seq<Item<R>>, cuts: seq<nat>, blocks: seq<seq<Item<R>>>)
    requires |cuts| == |blocks| + 1 && cuts[0] == 0 && cuts[|blocks|] == |items|
    requires forall k | 0 <= k < |blocks| :: |blocks[k]| == 1 && IsBlock(items, cuts, k, blocks[k])
    ensures |items| == |blocks|
    ensures forall i | 0 <= i < |blocks| :: items[i] == blocks[i][0]
  {
    UnitBlocks(items, cuts, blocks, |blocks|);
    forall i | 0 <= i < |blocks| ensures items[i] == blocks[i][0] {
      UnitBlocks(items, cuts, blocks, i);
      UnitBlocks(items, cuts, blocks, i + 1);
      assert IsBlock(items, cuts, i, blocks[i]);
      assert items[i] == items[cuts[i]..cuts[i + 1]][0];
    }
  }

  /** The items of a successful table listing, in arrival order. */
  lemma ItemsAreEntries(
    plans: seq<Plan<Table>>, run: seq<State<Table>>, k: nat, r: nat, cats: seq<Catalog>, execs: seq<Executor>)
    returns (order: seq<nat>)
    requires IsRun(plans, run) && k < |run| && r < |plans|
    requires plans[r].kind.Tables? && |cats| == |execs| == |plans[r].jobs|
    requires forall j | 0 <= j < |cats| :: plans[r].jobs[j].script == TablesScript(cats[j], execs[j])
    requires |run[k].rpcs| == |plans| && run[k].rpcs[r].phase.Returned? && run[k].rpcs[r].phase.out.Aggregated?
    ensures |order| == |cats| == |run[k].rpcs[r].phase.out.items|
    ensures forall j: nat :: j in order <==> j < |cats|
    ensures forall i, j | 0 <= i < j < |order| :: order[i] != order[j]
    ensures forall i | 0 <= i < |order| ::
      order[i] < |cats| && run[k].rpcs[r].phase.out.items[i] == EntryFor(plans, r, cats, execs, order[i])
  {
    var items := run[k].rpcs[r].phase.out.items;
    var cuts;
    order, cuts := AnswerIsWholeBlocks(plans, run, k, r);
    var blocks := seq(|order|, i requires 0 <= i < |order| => [EntryFor(plans, r, cats, execs, order[i])]);
    forall i | 0 <= i < |order| ensures IsBlock(items, cuts, i, blocks[i]) {
      TablesScriptValues(cats[order[i]], execs[order[i]]);
    }
    UnitBlocksAreItems(items, cuts, blocks);
  }

  /**
    End to end.  In every run of the server, a successful `ListTables` answers
    with one entry per database of the list, in some arrival order; each entry
    carries its own database's name and lists exactly that database's eligible
    tables, strictly increasing by schema and name, with their columns in
    attribute order, their parents in `inhseqno` order, their indexes and their
    constraints.  If the names are distinct, each appears in one entry.
   */
  lemma ListTablesEndToEnd(
    plans: seq<Plan<Table>>, run: seq<State<Table>>, k: nat, r: nat, cats: seq<Catalog>, execs: seq<Executor>)
    returns (order: seq<nat>)
    requires IsRun(plans, run) && k < |run| && r < |plans|
    requires plans[r].kind.Tables? && |cats| == |execs| == |plans[r].jobs|
    requires forall j | 0 <= j < |cats| :: WellFormed(cats[j]) && OnlyReorders(execs[j])
    requires forall j | 0 <= j < |cats| :: plans[r].jobs[j].script == TablesScript(cats[j], execs[j])
    requires |run[k].rpcs| == |plans| && run[k].rpcs[r].phase.Returned? && run[k].rpcs[r].phase.out.Aggregated?
    ensures Answers(plans, r, cats, order, Project(run[k].rpcs[r].phase.out.items, InfoProto))
    ensures NamesDistinct(plans[r].jobs) ==> DistinctDatabases(Project(run[k].rpcs[r].phase.out.items, InfoProto))
  {
    var items := run[k].rpcs[r].phase.out.items;
    order := ItemsAreEntries(plans, run, k, r, cats, execs);
    EntriesAnswer(plans, r, cats, execs, order, items);
    if NamesDistinct(plans[r].jobs) {
      DistinctNamesStayDistinct(plans, r, cats, order, Project(items, InfoProto));
    }
  }

  lemma EntriesAnswer(
    plans: seq<Plan<Table>>, r: nat, cats: seq<Catalog>, execs: seq<Executor>, order: seq<nat>, items: seq<Item<Table>>)
    requires r < |plans| && |cats| == |execs| == |plans[r].jobs| == |order| == |items|
    requires forall j | 0 <= j < |cats| :: WellFormed(cats[j]) && OnlyReorders(execs[j])
    requires forall j: nat :: j in order <==> j < |cats|
    requires forall i, j | 0 <= i < j < |order| :: order[i] != order[j]
    requires forall i | 0 <= i < |order| :: order[i] < |cats| && items[i] == EntryFor(plans, r, cats, execs, order[i])
    ensures Answers(plans, r, cats, order, Project(items, InfoProto))
  {
    var response := Project(items, InfoProto);
    forall i | 0 <= i < |order|
      ensures response[i].database == plans[r].jobs[order[i]].database
      ensures ListingMatches(cats[order[i]], response[i].tables)
    {
      EntryAnswers(plans, r, cats, execs, order[i]);
    }
  }

  lemma EntryAnswers(plans: seq<Plan<Table>>, r: nat, cats: seq<Catalog>, execs: seq<Executor>, j: nat)
    requires r < |plans| && |cats| == |execs| == |plans[r].jobs| && j < |cats|
    requires WellFormed(cats[j]) && OnlyReorders(execs[j])
    ensures
      var entry := InfoProto(EntryFor(plans, r, cats, execs, j));
      entry.database == plans[r].jobs[j].database && ListingMatches(cats[j], entry.tables)
  {
    DatabaseCarried(cats[j], execs[j]);
  }

  lemma DistinctNamesStayDistinct(
    plans: seq<Plan<Table>>, r: nat, cats: seq<Catalog>, order: seq<nat>, response: seq<DatabaseTables>)
    requires r < |plans| && |cats| == |plans[r].jobs|
    requires forall j | 0 <= j < |cats| :: WellFormed(cats[j])
    requires Answers(plans, r, cats, order, response)
    requires NamesDistinct(plans[r].jobs)
    ensures DistinctDatabases(response)
  {
    forall i, j | 0 <= i < j < |response| ensures response[i].database != response[j].database {
      assert order[i] < order[j] || order[j] < order[i];
    }
  }

  ghost predicate NamesDistinct<R>(jobs: seq<Job<R>>) {
    forall i, j | 0 <= i < j < |jobs| :: jobs[i].database != jobs[j].database
  }

  ghost predicate DistinctDatabases(response: seq<DatabaseTables>) {
    forall i, j | 0 <= i < j < |response| :: response[i].database != response[j].database
  }
}
