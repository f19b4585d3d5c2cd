/**
  The `ListTables` response read against the catalog rows themselves: which
  tables, columns, indexes, constraints and parents are in it, which are not,
  and in what order.
 */
module Response {
  import opened Wrappers
  import opened Workers
  import opened FanOut
  import opened Machine
  import opened Cancellation
  import opened Outcomes
  import opened Sql
  import opened Text
  import opened Catalog
  import opened TablesQuery
  import opened TablesSpec
  import opened TablesProof
  import opened TablesTheorem
  import opened TableRows
  import opened Server
  import opened EndToEnd

  // ---------- aggregates without an order ----------

  lemma WithoutOne<A, B>(ys: seq<B>, xs: seq<A>, f: A -> B) returns (p: nat)
    requires Permuted(ys, Project(xs, f)) && ys != []
    ensures p < |xs| && f(xs[p]) == ys[0]
    ensures Permuted(ys[1..], Project(xs[..p] + xs[p + 1..], f))
  {
    PermutedMembers(ys, Project(xs, f));
    assert ys[0] in Project(xs, f);
    p :| 0 <= p < |xs| && Project(xs, f)[p] == ys[0];
    PermutedRest(ys, Project(xs, f), p);
    assert Project(xs, f)[..p] + Project(xs, f)[p + 1..] == Project(xs[..p] + xs[p + 1..], f);
  }

  lemma PutBack<A>(zs: seq<A>, xs: seq<A>, p: nat)
    requires p < |xs| && Permuted(zs, xs[..p] + xs[p + 1..])
    ensures Permuted([xs[p]] + zs, xs)
  {
    assert xs == xs[..p] + [xs[p]] + xs[p + 1..];
  }

  /** A reordered projection is the projection of the reordered rows. */
  lemma {:induction false} PermutedPreimage<A, B>(ys: seq<B>, xs: seq<A>, f: A -> B) returns (zs: seq<A>)
    requires Permuted(ys, Project(xs, f))
    ensures Permuted(zs, xs) && ys == Project(zs, f)
  {
    if ys == [] {
      PermutedMembers(ys, Project(xs, f));
      zs := [];
    } else {
      var p := WithoutOne(ys, xs, f);
      var rest := PermutedPreimage(ys[1..], xs[..p] + xs[p + 1..], f);
      PutBack(rest, xs, p);
      zs := [xs[p]] + rest;
    }
  }

  // ---------- columns and parents ----------

  /** The columns of a table are its attributes that are neither system columns nor dropped, by number. */
  lemma ColumnsExactly(cat: Catalog, c: PgClass, p: ProtoTable) returns (attributes: seq<PgAttribute>)
    requires WellFormed(cat) && ProtoMatches(cat, c, p)
    ensures forall a ::
      a in attributes <==> a in cat.attributes && a.attrelid == c.oid && a.attnum > 0 && !a.attisdropped
    ensures forall i, j | 0 <= i < j < |attributes| :: attributes[i].attnum < attributes[j].attnum
    ensures |p.columns| == |attributes|
    ensures forall i | 0 <= i < |attributes| ::
      var a := attributes[i];
      p.columns[i]
        == ProtoColumn(a.attname, cat.pg.formatType(a.atttypid, a.atttypmod), a.attnotnull, a.attinhcount > 0)
  {
    attributes :| Lists(attributes, cat.attributes, ColumnOf(c.oid), AttributeNumber)
                  && p.columns == Project(attributes, AttributeColumn(cat));
    forall i, j | 0 <= i < j < |attributes| ensures attributes[i].attnum < attributes[j].attnum {
      assert AttributeNumber(attributes[i]) < AttributeNumber(attributes[j]);
    }
  }

  /** The parents of a table are the tables it inherits from, by `inhseqno`. */
  lemma ParentsExactly(cat: Catalog, c: PgClass, p: ProtoTable) returns (rows: seq<PgInherits>)
    requires WellFormed(cat) && ProtoMatches(cat, c, p)
    ensures forall i :: i in rows <==> i in cat.inherits && i.inhrelid == c.oid
    ensures forall i, j | 0 <= i < j < |rows| :: rows[i].inhseqno < rows[j].inhseqno
    ensures |p.parentTables| == |rows|
    ensures forall i | 0 <= i < |rows| ::
      p.parentTables[i].oid == rows[i].inhparent && p.parentTables[i].name == cat.pg.regclassText(rows[i].inhparent)
  {
    rows :| Lists(rows, cat.inherits, ChildIs(c.oid), InheritsNumber)
            && p.parentTables == Project(rows, ParentOf(cat));
    forall i, j | 0 <= i < j < |rows| ensures rows[i].inhseqno < rows[j].inhseqno {
      assert InheritsNumber(rows[i]) < InheritsNumber(rows[j]);
    }
  }

  // ---------- constraints ----------

  function OfTable(oid: nat): PgConstraint -> bool {
    (con: PgConstraint) => con.conrelid == oid && con.contype in {'p', 'u', 'f', 'c', 'x'}
  }

  function Said(cat: Catalog): PgConstraint -> ProtoConstraint {
    (con: PgConstraint) => ConstraintSaid(cat, con)
  }

  lemma {:induction false} ConstraintsSaidAreProjected(cat: Catalog, oid: nat, cons: seq<PgConstraint>)
    ensures ConstraintsSaid(cat, oid, cons) == Project(Where(cons, OfTable(oid)), Said(cat))
  {
    if cons != [] {
      ConstraintsSaidAreProjected(cat, oid, cons[1..]);
      var head := if OfTable(oid)(cons[0]) then [cons[0]] else [];
      ProjectAppend(head, Where(cons[1..], OfTable(oid)), Said(cat));
    }
  }

  /** `pc` says what the catalog says about constraint `con`, which is of one of the five listed kinds. */
  ghost predicate ConstraintCarried(cat: Catalog, con: PgConstraint, pc: ProtoConstraint) {
    && pc.name == con.conname && pc.definition == cat.pg.constraintDef(con.oid)
    && (|| (con.contype == 'p' && pc.typ == "primary_key")
        || (con.contype == 'u' && pc.typ == "unique")
        || (con.contype == 'f' && pc.typ == "foreign_key")
        || (con.contype == 'c' && pc.typ == "check")
        || (con.contype == 'x' && pc.typ == "exclusion"))
    && pc.localColumns == NamedColumns(cat, con.conrelid, KeysOrNone(con.conkey))
    && (pc.foreignTable.Some? <==> con.contype == 'f' && cat.pg.regclassText(con.confrelid) != "")
    && (pc.foreignTable.Some? ==> pc.foreignTable.value == cat.pg.regclassText(con.confrelid))
    && (con.contype == 'f' ==> pc.foreignColumns == NamedColumns(cat, con.confrelid, KeysOrNone(con.confkey)))
    && (con.contype != 'f' ==> pc.foreignColumns == [])
  }

  /**
    The constraints of a table are exactly its primary keys, unique
    constraints, foreign keys, checks and exclusions, each as often as the
    catalog has it.
   */
  lemma ConstraintsExactly(cat: Catalog, c: PgClass, p: ProtoTable) returns (cons: seq<PgConstraint>)
    requires WellFormed(cat) && ProtoMatches(cat, c, p)
    ensures forall con ::
      multiset(cons)[con] ==
      if con.conrelid == c.oid && con.contype in {'p', 'u', 'f', 'c', 'x'} then multiset(cat.constraints)[con] else 0
    ensures |p.constraints| == |cons|
    ensures forall i | 0 <= i < |cons| :: ConstraintCarried(cat, cons[i], p.constraints[i])
  {
    var own := Where(cat.constraints, OfTable(c.oid));
    ConstraintsSaidAreProjected(cat, c.oid, cat.constraints);
    cons := PermutedPreimage(p.constraints, own, Said(cat));
    forall con ensures multiset(cons)[con] == if OfTable(c.oid)(con) then multiset(cat.constraints)[con] else 0 {
      WhereCounts(cat.constraints, OfTable(c.oid), con);
    }
    forall i | 0 <= i < |cons| ensures ConstraintCarried(cat, cons[i], p.constraints[i]) {
      PermutedMembers(cons, own);
      WhereMembers(cat.constraints, OfTable(c.oid), cons[i]);
      assert p.constraints[i] == Said(cat)(cons[i]);
    }
  }

  /** In particular every constraint in the response is one of the catalog's, of a listed kind. */
  lemma NoConstraintIsInvented(cat: Catalog, c: PgClass, p: ProtoTable, pc: ProtoConstraint)
    returns (con: PgConstraint)
    requires WellFormed(cat) && ProtoMatches(cat, c, p) && pc in p.constraints
    ensures con in cat.constraints && con.conrelid == c.oid && con.contype in {'p', 'u', 'f', 'c', 'x'}
    ensures ConstraintCarried(cat, con, pc)
  {
    var cons := ConstraintsExactly(cat, c, p);
    var i :| 0 <= i < |p.constraints| && p.constraints[i] == pc;
    con := cons[i];
    assert con in multiset(cons);
  }

  /** And no foreign key, nor any other listed constraint, is left out. */
  lemma NoConstraintIsLost(cat: Catalog, c: PgClass, p: ProtoTable, con: PgConstraint) returns (pc: ProtoConstraint)
    requires WellFormed(cat) && ProtoMatches(cat, c, p) && con in cat.constraints && con.conrelid == c.oid
    requires con.contype in {'p', 'u', 'f', 'c', 'x'}
    ensures pc in p.constraints && ConstraintCarried(cat, con, pc)
  {
    var cons := ConstraintsExactly(cat, c, p);
    assert con in multiset(cons);
    var i :| 0 <= i < |cons| && cons[i] == con;
    pc := p.constraints[i];
  }

  // ---------- indexes ----------

  function IndexOf(oid: nat): PgIndex -> bool {
    (ix: PgIndex) => ix.indrelid == oid
  }

  /** What is said about an index; `cat.indexes` all resolve, so the last case never shows. */
  function SaidOf(cat: Catalog): PgIndex -> ProtoIndex {
    (ix: PgIndex) =>
      if IndexResolves(cat, ix) then IndexSaid(cat, ix)
      else ProtoIndex("", "", [], false, false, false, false, false, false, 0, "")
  }

  lemma {:induction false} IndexesSaidAreProjected(cat: Catalog, oid: nat, ixs: seq<PgIndex>)
    requires forall ix | ix in ixs :: IndexResolves(cat, ix)
    ensures IndexesSaid(cat, oid, ixs) == Project(Where(ixs, IndexOf(oid)), SaidOf(cat))
  {
    if ixs != [] {
      IndexesSaidAreProjected(cat, oid, ixs[1..]);
      var head := if IndexOf(oid)(ixs[0]) then [ixs[0]] else [];
      ProjectAppend(head, Where(ixs[1..], IndexOf(oid)), SaidOf(cat));
    }
  }

  /** `pi` says what the catalog says about index `ix`, whose own class row is `own`, of access method `am`. */
  ghost predicate IndexCarried(cat: Catalog, ix: PgIndex, own: PgClass, am: PgAm, pi: ProtoIndex) {
    && own in cat.classes && own.oid == ix.indexrelid && am in cat.ams && am.oid == own.relam
    && pi.name == own.relname && pi.typ == am.amname
    && pi.columns == NamedColumns(cat, ix.indrelid, ix.indkey)
    && pi.isUnique == ix.indisunique && pi.isPrimary == ix.indisprimary && pi.isExclusion == ix.indisexclusion
    && pi.isPartial == ix.indpred.Some? && pi.isValid == ix.indisvalid
    && (pi.isInherited <==> exists inh :: inh in cat.inherits && inh.inhrelid == ix.indexrelid)
    && pi.sizeBytes == SizeSaid(cat.pg.relationSize(ix.indexrelid))
    && pi.definition == cat.pg.indexDef(ix.indexrelid)
  }

  ghost predicate IndexListed(cat: Catalog, ix: PgIndex, pi: ProtoIndex) {
    exists own, am :: IndexCarried(cat, ix, own, am, pi)
  }

  lemma IndexSaidCarries(cat: Catalog, ix: PgIndex, pi: ProtoIndex)
    requires WellFormed(cat) && ix in cat.indexes && pi == SaidOf(cat)(ix)
    ensures IndexListed(cat, ix, pi)
  {
    assert IndexResolves(cat, ix);
    var own := FindClass(cat, ix.indexrelid).value;
    var am := FindAm(cat, own.relam).value;
    assert ClassWith(ix.indexrelid)(own) && AmWith(own.relam)(am);
    assert IndexCarried(cat, ix, own, am, pi);
  }

  lemma EachIndexOnce(cat: Catalog, oid: nat, ixs: seq<PgIndex>)
    requires WellFormed(cat) && Permuted(ixs, Where(cat.indexes, IndexOf(oid)))
    ensures forall ix :: ix in ixs <==> ix in cat.indexes && ix.indrelid == oid
    ensures forall i, j | 0 <= i < j < |ixs| :: ixs[i].indexrelid != ixs[j].indexrelid
  {
    var own := Where(cat.indexes, IndexOf(oid));
    PermutedMembers(ixs, own);
    forall ix ensures ix in ixs <==> ix in cat.indexes && ix.indrelid == oid {
      WhereMembers(cat.indexes, IndexOf(oid), ix);
    }
    WhereKeepsUnique(cat.indexes, IndexOid, IndexOf(oid));
    PermutedKeepsUnique(own, ixs, IndexOid);
    forall i, j | 0 <= i < j < |ixs| ensures ixs[i].indexrelid != ixs[j].indexrelid {
      assert IndexOid(ixs[i]) != IndexOid(ixs[j]);
    }
  }

  /** The indexes of a table are exactly those on it, each once. */
  lemma IndexesExactly(cat: Catalog, c: PgClass, p: ProtoTable) returns (ixs: seq<PgIndex>)
    requires WellFormed(cat) && ProtoMatches(cat, c, p)
    ensures forall ix :: ix in ixs <==> ix in cat.indexes && ix.indrelid == c.oid
    ensures forall i, j | 0 <= i < j < |ixs| :: ixs[i].indexrelid != ixs[j].indexrelid
    ensures |p.indexes| == |ixs|
    ensures forall i | 0 <= i < |ixs| :: IndexListed(cat, ixs[i], p.indexes[i])
  {
    IndexesSaidAreProjected(cat, c.oid, cat.indexes);
    ixs := PermutedPreimage(p.indexes, Where(cat.indexes, IndexOf(c.oid)), SaidOf(cat));
    EachIndexOnce(cat, c.oid, ixs);
    forall i | 0 <= i < |ixs| ensures IndexListed(cat, ixs[i], p.indexes[i]) {
      assert ixs[i] in cat.indexes;
      IndexSaidCarries(cat, ixs[i], p.indexes[i]);
    }
  }

  // ---------- which tables, in which order ----------

  /** The class is an ordinary or partitioned table whose schema is not a system or temporary-looking one. */
  ghost predicate IsUserTable(cat: Catalog, c: PgClass, n: PgNamespace) {
    && c in cat.classes && c.relkind in {'r', 'p'} && n in cat.namespaces && n.oid == c.relnamespace
    && n.nspname !in {"pg_catalog", "information_schema", "pg_toast"} && !LooksTemporary(n.nspname)
  }

  lemma EligibleIsUserTable(cat: Catalog, c: PgClass)
    requires WellFormed(cat) && c in cat.classes
    ensures Eligible(cat, c) <==> exists n :: IsUserTable(cat, c, n)
    ensures forall n | IsUserTable(cat, c, n) :: SchemaOf(cat, c) == n.nspname
  {
    var found := FindNamespace(cat, c.relnamespace);
    if found.Some? {
      UserSchemaExactly(found.value.nspname);
      assert NamespaceWith(c.relnamespace)(found.value);
      assert Eligible(cat, c) ==> IsUserTable(cat, c, found.value);
    }
    forall n | IsUserTable(cat, c, n) ensures found == Some(n) && Eligible(cat, c) {
      assert NamespaceWith(c.relnamespace)(n);
      UniqueElement(cat.namespaces, NamespaceOid, n, found.value);
    }
  }

  /** Every user table is listed, under its own schema and name, with what the catalog says about it. */
  lemma UserTableListed(cat: Catalog, tables: seq<ProtoTable>, c: PgClass, n: PgNamespace) returns (i: nat)
    requires WellFormed(cat) && ListingMatches(cat, tables) && IsUserTable(cat, c, n)
    ensures i < |tables| && ProtoMatches(cat, c, tables[i])
    ensures tables[i].oid == c.oid && tables[i].schema == n.nspname && tables[i].name == c.relname
  {
    EligibleIsUserTable(cat, c);
    assert c in ListedTables(cat);
    i :| 0 <= i < |ListedTables(cat)| && ListedTables(cat)[i] == c;
  }

  /** Nothing but user tables is listed. */
  lemma ListedIsUserTable(cat: Catalog, tables: seq<ProtoTable>, i: nat) returns (c: PgClass, n: PgNamespace)
    requires WellFormed(cat) && ListingMatches(cat, tables) && i < |tables|
    ensures IsUserTable(cat, c, n) && ProtoMatches(cat, c, tables[i])
    ensures tables[i].schema == n.nspname && tables[i].name == c.relname
  {
    c := ListedTables(cat)[i];
    assert c in ListedTables(cat);
    EligibleIsUserTable(cat, c);
    n :| IsUserTable(cat, c, n);
  }

  ghost predicate InOrderBySchemaAndName(tables: seq<ProtoTable>) {
    forall i, j | 0 <= i < j < |tables| ::
      var a, b := tables[i], tables[j];
      TextLe(a.schema, b.schema) && (a.schema == b.schema ==> TextLe(a.name, b.name) && a.name != b.name)
  }

  lemma ListedInOrder(cat: Catalog, tables: seq<ProtoTable>)
    requires WellFormed(cat) && ListingMatches(cat, tables)
    ensures InOrderBySchemaAndName(tables)
  {
    forall i, j | 0 <= i < j < |tables| ensures ProtoBefore(tables[i], tables[j]) {
    }
  }

  /**
    In every run of the server, in the entry of every database, the tables
    stand by schema first and by name within a schema, no two alike.
   */
  lemma ResponseOrder(
    plans: seq<Plan<Table>>, run: seq<State<Table>>, k: nat, r: nat, cats: seq<Catalog>, execs: seq<Executor>)
    requires IsRun(plans, run) && k < |run| && r < |plans|
    requires plans[r].kind.Tables? && |cats| == |execs| == |plans[r].jobs|
    requires forall j | 0 <= j < |cats| :: WellFormed(cats[j]) && OnlyReorders(execs[j])
    requires forall j | 0 <= j < |cats| :: plans[r].jobs[j].script == TablesScript(cats[j], execs[j])
    requires |run[k].rpcs| == |plans| && run[k].rpcs[r].phase.Returned? && run[k].rpcs[r].phase.out.Aggregated?
    ensures
      var response := Project(run[k].rpcs[r].phase.out.items, InfoProto);
      forall d | 0 <= d < |response| :: InOrderBySchemaAndName(response[d].tables)
  {
    var response := Project(run[k].rpcs[r].phase.out.items, InfoProto);
    var order := ListTablesEndToEnd(plans, run, k, r, cats, execs);
    forall d | 0 <= d < |response| ensures InOrderBySchemaAndName(response[d].tables) {
      ListedInOrder(cats[order[d]], response[d].tables);
    }
  }

  // ---------- when there is a response ----------

  lemma CleanWhenDecoded(database: string, raw: Script<QueryRow>)
    ensures Clean(Job(database, DecodeScript(raw))) <==> raw.Delivers? && raw.iterationOk && AllGood(raw.rows)
  {
    if raw.Delivers? {
      var decoded := Project(raw.rows, DecodeScanned);
      assert forall i | 0 <= i < |decoded| :: decoded[i].Good? <==> raw.rows[i].Good?;
    }
  }

  /**
    In every run `ListTables` succeeds exactly when no worker was refused and
    every database's query ran, delivered only good rows and ended cleanly: a
    broken iteration is never passed off as a shorter listing.
   */
  lemma ListTablesSucceedsExactly(
    plans: seq<Plan<Table>>, run: seq<State<Table>>, k: nat, r: nat, raws: seq<Script<QueryRow>>)
    requires IsRun(plans, run) && k < |run| && r < |plans| && |raws| == |plans[r].jobs|
    requires forall j | 0 <= j < |raws| :: plans[r].jobs[j].script == DecodeScript(raws[j])
    requires |run[k].rpcs| == |plans| && run[k].rpcs[r].phase.Returned?
    ensures
      run[k].rpcs[r].phase.out.Aggregated? <==>
      forall j | 0 <= j < |raws| ::
        !Refused(run, Wid(r, j), k) && raws[j].Delivers? && raws[j].iterationOk && AllGood(raws[j].rows)
  {
    RpcAllOrNothing(plans, run, k, r);
    forall j | 0 <= j < |raws| ensures j in FailedWorkers(plans, run, k, r) <==>
        Refused(run, Wid(r, j), k) || !(raws[j].Delivers? && raws[j].iterationOk && AllGood(raws[j].rows)) {
      CleanWhenDecoded(plans[r].jobs[j].database, raws[j]);
    }
    assert forall j | j in FailedWorkers(plans, run, k, r) :: 0 <= j < |raws|;
  }
}
