/** The main results about the table query. */
module TablesTheorem {
  import opened Wrappers
  import opened Sql
  import opened Text
  import opened Catalog
  import opened TablesQuery
  import opened TablesSpec
  import opened KeyVectors
  import opened TablesProof

  // ---------- the order of the output ----------

  function SchemaOf(cat: Catalog, c: PgClass): string {
    var n := FindNamespace(cat, c.relnamespace);
    if n.Some? then n.value.nspname else ""
  }

  lemma RowLeIsLinear()
    ensures Linear(RowLe)
  {
    forall a, b ensures RowLe(a, b) || RowLe(b, a) {
      PairLeLinear(a.schema, a.name, b.schema, b.name, a.schema, a.name);
    }
    forall a, b, c ensures RowLe(a, b) && RowLe(b, c) ==> RowLe(a, c) {
      PairLeLinear(a.schema, a.name, b.schema, b.name, c.schema, c.name);
    }
  }

  function ClassLe(cat: Catalog): (PgClass, PgClass) -> bool {
    (a: PgClass, b: PgClass) => PairLe(SchemaOf(cat, a), a.relname, SchemaOf(cat, b), b.relname)
  }

  lemma ClassLeIsLinear(cat: Catalog)
    ensures Linear(ClassLe(cat))
  {
    forall a, b ensures ClassLe(cat)(a, b) || ClassLe(cat)(b, a) {
      PairLeLinear(SchemaOf(cat, a), a.relname, SchemaOf(cat, b), b.relname, "", "");
    }
    forall a, b, c ensures ClassLe(cat)(a, b) && ClassLe(cat)(b, c) ==> ClassLe(cat)(a, c) {
      PairLeLinear(SchemaOf(cat, a), a.relname, SchemaOf(cat, b), b.relname, SchemaOf(cat, c), c.relname);
    }
  }

  /** Two eligible classes with the same schema and name are the same class. */
  lemma SameNameSameClass(cat: Catalog, a: PgClass, b: PgClass)
    requires WellFormed(cat) && a in cat.classes && b in cat.classes && Eligible(cat, a) && Eligible(cat, b)
    requires SchemaOf(cat, a) == SchemaOf(cat, b) && a.relname == b.relname
    ensures a == b
  {
    var m, n := FindNamespace(cat, a.relnamespace).value, FindNamespace(cat, b.relnamespace).value;
    UniqueElement(cat.namespaces, NamespaceName, m, n);
    UniqueElement(cat.classes, ClassName, a, b);
  }

  // ---------- the tables that are listed ----------

  /** The eligible classes, by schema and name. */
  function ListedTables(cat: Catalog): seq<PgClass> {
    OrderBy(Where(cat.classes, EligibleIn(cat)), ClassLe(cat))
  }

  /** `a` comes before `b`: the schemas decide, and within one schema the names, which differ. */
  ghost predicate RowBefore(a: QueryRow, b: QueryRow) {
    && TextLe(a.schema, b.schema)
    && (a.schema == b.schema ==> TextLe(a.name, b.name) && a.name != b.name)
  }

  function RowOid(r: QueryRow): nat { r.oid }

  function ClassOfRow(cat: Catalog): QueryRow -> PgClass {
    (r: QueryRow) =>
      var c := FindClass(cat, r.oid);
      if c.Some? then c.value else PgClass(0, "", 0, ' ', 0, 0, 0, 0)
  }

  lemma EligibleMembers(cat: Catalog, c: PgClass)
    ensures c in Where(cat.classes, EligibleIn(cat)) <==> c in cat.classes && Eligible(cat, c)
  {
    WhereMembers(cat.classes, EligibleIn(cat), c);
  }

  /** Every output row belongs to the eligible class whose oid it carries. */
  lemma RowsKnowTheirClass(cat: Catalog, e: Executor, early: bool)
    requires WellFormed(cat) && OnlyReorders(e)
    ensures
      var eligible := Where(cat.classes, EligibleIn(cat));
      var outer := OuterRows(cat, e, early, cat.classes);
      && RowsMatch(cat, eligible, outer)
      && Project(outer, ClassOfRow(cat)) == eligible
      && Unique(outer, RowOid)
  {
    var eligible := Where(cat.classes, EligibleIn(cat));
    var outer := OuterRows(cat, e, early, cat.classes);
    OuterRowsMatch(cat, e, early, cat.classes);
    forall i | 0 <= i < |eligible| ensures ClassOfRow(cat)(outer[i]) == eligible[i] {
      assert RowMatches(cat, eligible[i], outer[i]);
      EligibleMembers(cat, eligible[i]);
      FoundClass(cat, eligible[i]);
    }
    WhereKeepsUnique(cat.classes, ClassOid, EligibleIn(cat));
    forall i, j | 0 <= i < j < |outer| ensures RowOid(outer[i]) != RowOid(outer[j]) {
      assert RowMatches(cat, eligible[i], outer[i]) && RowMatches(cat, eligible[j], outer[j]);
      assert ClassOid(eligible[i]) != ClassOid(eligible[j]);
    }
  }

  lemma SortedRows(cat: Catalog, e: Executor, early: bool)
    requires WellFormed(cat) && OnlyReorders(e)
    ensures
      var rows := TablesWith(cat, e, early);
      var outer := OuterRows(cat, e, early, cat.classes);
      Permuted(rows, outer) && Sorted(rows, RowLe)
  {
    var outer := OuterRows(cat, e, early, cat.classes);
    assert Permuted(e.output(outer), outer);
    OrderByPermutes(e.output(outer), RowLe);
    RowLeIsLinear();
    OrderBySorts(e.output(outer), RowLe);
  }

  lemma MatchedRow(cat: Catalog, classes: seq<PgClass>, rows: seq<QueryRow>, r: QueryRow)
    requires WellFormed(cat) && RowsMatch(cat, classes, rows) && r in rows
    requires Project(rows, ClassOfRow(cat)) == classes
    ensures ClassOfRow(cat)(r) in classes && Eligible(cat, ClassOfRow(cat)(r)) && RowMatches(cat, ClassOfRow(cat)(r), r)
  {
    var i :| 0 <= i < |rows| && rows[i] == r;
    assert Project(rows, ClassOfRow(cat))[i] == classes[i];
  }

  lemma EachRowMatches(cat: Catalog, e: Executor, early: bool, r: QueryRow)
    requires WellFormed(cat) && OnlyReorders(e) && r in TablesWith(cat, e, early)
    ensures ClassOfRow(cat)(r) in cat.classes && Eligible(cat, ClassOfRow(cat)(r))
    ensures RowMatches(cat, ClassOfRow(cat)(r), r)
  {
    var outer := OuterRows(cat, e, early, cat.classes);
    SortedRows(cat, e, early);
    PermutedMembers(TablesWith(cat, e, early), outer);
    RowsKnowTheirClass(cat, e, early);
    MatchedRow(cat, Where(cat.classes, EligibleIn(cat)), outer, r);
    EligibleMembers(cat, ClassOfRow(cat)(r));
  }

  lemma EligibleSeparated(cat: Catalog)
    requires WellFormed(cat)
    ensures Separates(Where(cat.classes, EligibleIn(cat)), ClassLe(cat))
  {
    var eligible := Where(cat.classes, EligibleIn(cat));
    forall a, b | a in eligible && b in eligible && ClassLe(cat)(a, b) && ClassLe(cat)(b, a) ensures a == b {
      EligibleMembers(cat, a);
      EligibleMembers(cat, b);
      PairLeLinear(SchemaOf(cat, a), a.relname, SchemaOf(cat, b), b.relname, "", "");
      SameNameSameClass(cat, a, b);
    }
  }

  /** The classes of the sorted rows are the listed tables. */
  lemma RowsAreOfListedTables(cat: Catalog, e: Executor, early: bool)
    requires WellFormed(cat) && OnlyReorders(e)
    ensures Project(TablesWith(cat, e, early), ClassOfRow(cat)) == ListedTables(cat)
  {
    var rows := TablesWith(cat, e, early);
    var outer := OuterRows(cat, e, early, cat.classes);
    var eligible := Where(cat.classes, EligibleIn(cat));
    var tables := Project(rows, ClassOfRow(cat));
    SortedRows(cat, e, early);
    RowsKnowTheirClass(cat, e, early);
    ProjectPermuted(rows, outer, ClassOfRow(cat));
    assert Permuted(tables, eligible);
    forall i, j | 0 <= i < j < |tables| ensures ClassLe(cat)(tables[i], tables[j]) {
      EachRowMatches(cat, e, early, rows[i]);
      EachRowMatches(cat, e, early, rows[j]);
      assert RowLe(rows[i], rows[j]);
    }
    ClassLeIsLinear(cat);
    EligibleSeparated(cat);
    PermutedMembers(tables, eligible);
    OrderByRestores(eligible, tables, ClassLe(cat));
  }

  lemma SameNameSameRow(cat: Catalog, e: Executor, early: bool, a: QueryRow, b: QueryRow)
    requires WellFormed(cat) && OnlyReorders(e) && a in TablesWith(cat, e, early) && b in TablesWith(cat, e, early)
    requires a.schema == b.schema && a.name == b.name
    ensures a.oid == b.oid
  {
    EachRowMatches(cat, e, early, a);
    EachRowMatches(cat, e, early, b);
    SameNameSameClass(cat, ClassOfRow(cat)(a), ClassOfRow(cat)(b));
  }

  lemma OneRowPerOid(cat: Catalog, e: Executor, early: bool)
    requires WellFormed(cat) && OnlyReorders(e)
    ensures Unique(TablesWith(cat, e, early), RowOid)
  {
    SortedRows(cat, e, early);
    RowsKnowTheirClass(cat, e, early);
    PermutedKeepsUnique(OuterRows(cat, e, early, cat.classes), TablesWith(cat, e, early), RowOid);
  }

  lemma RowsStrictlyOrdered(cat: Catalog, e: Executor, early: bool, i: nat, j: nat)
    requires WellFormed(cat) && OnlyReorders(e) && i < j < |TablesWith(cat, e, early)|
    ensures RowBefore(TablesWith(cat, e, early)[i], TablesWith(cat, e, early)[j])
  {
    var rows := TablesWith(cat, e, early);
    SortedRows(cat, e, early);
    OneRowPerOid(cat, e, early);
    assert RowLe(rows[i], rows[j]);
    assert RowOid(rows[i]) != RowOid(rows[j]);
    if rows[i].schema == rows[j].schema && rows[i].name == rows[j].name {
      SameNameSameRow(cat, e, early, rows[i], rows[j]);
    }
    PairLeMeans(rows[i].schema, rows[i].name, rows[j].schema, rows[j].name);
  }

  /**
    The table query returns exactly one row per eligible table, in strictly
    increasing order of schema and name, and each row's nested content is what
    the catalog says about that table, for every physical order of evaluation.
   */
  lemma QueryTablesIsCorrect(cat: Catalog, e: Executor, early: bool)
    requires WellFormed(cat) && OnlyReorders(e)
    ensures forall c :: c in ListedTables(cat) <==> c in cat.classes && Eligible(cat, c)
    ensures RowsMatch(cat, ListedTables(cat), TablesWith(cat, e, early))
    ensures forall i, j | 0 <= i < j < |TablesWith(cat, e, early)| ::
      RowBefore(TablesWith(cat, e, early)[i], TablesWith(cat, e, early)[j])
  {
    var rows := TablesWith(cat, e, early);
    var tables := ListedTables(cat);
    RowsAreOfListedTables(cat, e, early);
    OrderByPermutes(Where(cat.classes, EligibleIn(cat)), ClassLe(cat));
    PermutedMembers(tables, Where(cat.classes, EligibleIn(cat)));
    forall c ensures c in tables <==> c in cat.classes && Eligible(cat, c) {
      EligibleMembers(cat, c);
    }
    forall i | 0 <= i < |rows| ensures tables[i] in cat.classes && Eligible(cat, tables[i])
        && RowMatches(cat, tables[i], rows[i]) {
      assert tables[i] == Project(rows, ClassOfRow(cat))[i];
      EachRowMatches(cat, e, early, rows[i]);
    }
    forall i, j | 0 <= i < j < |rows| ensures RowBefore(rows[i], rows[j]) {
      RowsStrictlyOrdered(cat, e, early, i, j);
    }
  }

  lemma {:induction false} EntryAmongIndexes(cat: Catalog, oid: nat, ixs: seq<PgIndex>, ix: PgIndex)
    requires ix in ixs && ix.indrelid == oid && forall x | x in ixs :: IndexResolves(cat, x)
    ensures IndexEntry(cat, ix) in TableIndexes(cat, oid, ixs)
  {
    if ix != ixs[0] {
      EntryAmongIndexes(cat, oid, ixs[1..], ix);
    }
  }

  /**
    Every index of a listed table is emitted with that table, and its column
    list is its key vector in key order without the expression slots; the list
    is NULL exactly when no slot names a column.
   */
  lemma IndexColumnsEmitted(cat: Catalog, e: Executor, i: nat, ix: PgIndex)
    requires WellFormed(cat) && OnlyReorders(e) && i < |ListedTables(cat)|
    requires ix in cat.indexes && ix.indrelid == ListedTables(cat)[i].oid
    requires KeyColumnsResolve(cat, ix.indrelid, ix.indkey)
    ensures i < |QueryTables(cat, e)| && QueryTables(cat, e)[i].indexes.Some?
    ensures IndexEntry(cat, ix) in QueryTables(cat, e)[i].indexes.value
    ensures
      IndexEntry(cat, ix).columns ==
      if forall k | k in ix.indkey :: k == 0 then None
      else Some(Project(Where(ix.indkey, IsColumnSlot), ColumnName(cat, ix.indrelid)))
  {
    QueryTablesIsCorrect(cat, e, true);
    var row := QueryTables(cat, e)[i];
    assert RowMatches(cat, ListedTables(cat)[i], row);
    EntryAmongIndexes(cat, ix.indrelid, cat.indexes, ix);
    PermutedMembers(row.indexes.value, TableIndexes(cat, ix.indrelid, cat.indexes));
    NamedColumnsFilterExpressions(cat, ix.indrelid, ix.indkey);
    NullExactlyWithoutColumns(cat, ix.indrelid, ix.indkey);
  }

  // ---------- what does not depend on the executor, nor on the early filter ----------

  /** Equal except that the two aggregates without ORDER BY may be arranged differently. */
  ghost predicate SameUpToOrder(a: QueryRow, b: QueryRow) {
    && a.(indexes := b.indexes, constraints := b.constraints) == b
    && SameBag(a.indexes, b.indexes) && SameBag(a.constraints, b.constraints)
  }

  ghost predicate SameBag<A>(a: Option<seq<A>>, b: Option<seq<A>>) {
    (a.Some? <==> b.Some?) && (a.Some? ==> Permuted(a.value, b.value))
  }

  lemma {:induction false} ListsIsUnique<A(!new)>(a: seq<A>, b: seq<A>, xs: seq<A>, p: A -> bool, key: A -> int)
    requires Lists(a, xs, p, key) && Lists(b, xs, p, key)
    ensures a == b
  {
    RisingIsUnique(a, b, key);
  }

  lemma {:induction false} RisingIsUnique<A(!new)>(a: seq<A>, b: seq<A>, key: A -> int)
    requires forall x :: x in a <==> x in b
    requires forall i, j | 0 <= i < j < |a| :: key(a[i]) < key(a[j])
    requires forall i, j | 0 <= i < j < |b| :: key(b[i]) < key(b[j])
    ensures a == b
  {
    assert b != [] ==> b[0] in a;
    if a != [] {
      assert a[0] in b;
      var i :| 0 <= i < |b| && b[i] == a[0];
      var j :| 0 <= j < |a| && a[j] == b[0];
      assert key(a[0]) <= key(a[j]) && key(b[0]) <= key(b[i]);
      assert a[0] == b[0];
      forall x ensures x in a[1..] <==> x in b[1..] {
        if x in a[1..] {
          var k :| 0 < k < |a| && a[k] == x;
          assert key(a[0]) < key(x);
          assert x in b;
        }
        if x in b[1..] {
          var k :| 0 < k < |b| && b[k] == x;
          assert key(b[0]) < key(x);
          assert x in a;
        }
      }
      RisingIsUnique(a[1..], b[1..], key);
      assert a == [a[0]] + a[1..] && b == [b[0]] + b[1..];
    }
  }

  lemma MatchingRowsAgree(cat: Catalog, c: PgClass, a: QueryRow, b: QueryRow)
    requires WellFormed(cat) && Eligible(cat, c) && RowMatches(cat, c, a) && RowMatches(cat, c, b)
    ensures SameUpToOrder(a, b)
  {
    var p :| Lists(p, cat.attributes, ColumnOf(c.oid), AttributeNumber)
        && a.columns == NullIfEmpty(Project(p, ToColumnJson(cat)));
    var q :| Lists(q, cat.attributes, ColumnOf(c.oid), AttributeNumber)
        && b.columns == NullIfEmpty(Project(q, ToColumnJson(cat)));
    ListsIsUnique(p, q, cat.attributes, ColumnOf(c.oid), AttributeNumber);
    var r :| Lists(r, cat.inherits, ChildIs(c.oid), InheritsNumber)
        && a.parentTables == NullIfEmpty(Project(r, ToParentJson(cat)));
    var t :| Lists(t, cat.inherits, ChildIs(c.oid), InheritsNumber)
        && b.parentTables == NullIfEmpty(Project(t, ToParentJson(cat)));
    ListsIsUnique(r, t, cat.inherits, ChildIs(c.oid), InheritsNumber);
  }

  /**
    Filtering indexes early loses nothing, and neither does any physical order:
    with and without the filter in `index_data`, under any two executors, the
    query returns the same tables in the same order with the same content.
   */
  lemma EarlyFilterIsLossless(cat: Catalog, e: Executor, f: Executor)
    requires WellFormed(cat) && OnlyReorders(e) && OnlyReorders(f)
    ensures |QueryTables(cat, e)| == |TablesWith(cat, f, false)|
    ensures forall i | 0 <= i < |QueryTables(cat, e)| ::
        SameUpToOrder(QueryTables(cat, e)[i], TablesWith(cat, f, false)[i])
  {
    QueryTablesIsCorrect(cat, e, true);
    QueryTablesIsCorrect(cat, f, false);
    var tables := ListedTables(cat);
    forall i | 0 <= i < |tables| ensures SameUpToOrder(QueryTables(cat, e)[i], TablesWith(cat, f, false)[i]) {
      MatchingRowsAgree(cat, tables[i], QueryTables(cat, e)[i], TablesWith(cat, f, false)[i]);
    }
  }

  // ---------- the schema filter ----------

  /** A name one of the two LIKE patterns catches: each `_` stands for any character. */
  predicate LooksTemporary(s: string) {
    || (|s| >= 8 && s[..2] == "pg" && s[3..7] == "temp")
    || (|s| >= 14 && s[..2] == "pg" && s[3..8] == "toast" && s[9..13] == "temp")
  }

  /** A name PostgreSQL gives to a session's temporary schema. */
  predicate IsTemporary(s: string) {
    "pg_temp_" <= s || "pg_toast_temp_" <= s
  }

  predicate FitsAt(s: string, prefix: string) {
    |prefix| <= |s| && forall i | 0 <= i < |prefix| :: prefix[i] == '_' || prefix[i] == s[i]
  }

  lemma {:induction false} LikePrefix(s: string, prefix: string)
    requires '%' !in prefix
    ensures Like(s, prefix + "%") <==> FitsAt(s, prefix)
  {
    var pattern := prefix + "%";
    if prefix == [] {
      assert pattern == "%";
      LikeAnything(s);
    } else if s != [] {
      assert pattern[1..] == prefix[1..] + "%";
      LikePrefix(s[1..], prefix[1..]);
      assert FitsAt(s, prefix) ==> FitsAt(s[1..], prefix[1..]);
      assert FitsAt(s[1..], prefix[1..]) && (prefix[0] == '_' || prefix[0] == s[0]) ==> FitsAt(s, prefix) by {
        assert forall i | 0 < i < |prefix| :: prefix[i] == prefix[1..][i - 1];
        assert forall i | 0 < i < |s| :: s[i] == s[1..][i - 1];
      }
    }
  }

  lemma FitsTemp(s: string)
    ensures FitsAt(s, "pg_temp_") <==> |s| >= 8 && s[..2] == "pg" && s[3..7] == "temp"
  {
    if |s| >= 8 {
      assert s[..2] == [s[0], s[1]];
      assert s[3..7] == [s[3], s[4], s[5], s[6]];
    }
  }

  lemma FitsToastTemp(s: string)
    ensures FitsAt(s, "pg_toast_temp_") <==> |s| >= 14 && s[..2] == "pg" && s[3..8] == "toast" && s[9..13] == "temp"
  {
    if |s| >= 14 {
      assert s[..2] == [s[0], s[1]];
      assert s[3..8] == [s[3], s[4], s[5], s[6], s[7]];
      assert s[9..13] == [s[9], s[10], s[11], s[12]];
    }
  }

  /**
    The schema filter, exactly: besides the three system schemas it drops every
    name that looks temporary, wherever the pattern has an underscore.
   */
  lemma UserSchemaExactly(s: string)
    ensures UserSchema(s) <==> s !in {"pg_catalog", "information_schema", "pg_toast"} && !LooksTemporary(s)
  {
    LikePrefix(s, "pg_temp_");
    assert "pg_temp_" + "%" == "pg_temp_%";
    LikePrefix(s, "pg_toast_temp_");
    assert "pg_toast_temp_" + "%" == "pg_toast_temp_%";
    FitsTemp(s);
    FitsToastTemp(s);
  }

  /**
    So no temporary schema is ever listed, and a schema that is neither a
    system nor a temporary one is listed if and only if its name does not look
    temporary: `pgxtempx` is a user schema whose tables are dropped.
   */
  lemma FilterAgainstTemporary(s: string)
    ensures IsTemporary(s) ==> !UserSchema(s)
    ensures
      s !in {"pg_catalog", "information_schema", "pg_toast"} && !IsTemporary(s) ==>
        (UserSchema(s) <==> !LooksTemporary(s))
    ensures !IsTemporary("pgxtempx") && !UserSchema("pgxtempx")
  {
    UserSchemaExactly(s);
    if IsTemporary(s) {
      TemporaryLooksTemporary(s);
    }
    UserSchemaDropped();
  }

  lemma TemporaryLooksTemporary(s: string)
    requires IsTemporary(s)
    ensures LooksTemporary(s)
  {
    if "pg_temp_" <= s {
      FitsTemp(s);
    } else {
      FitsToastTemp(s);
    }
  }

  lemma UserSchemaDropped()
    ensures !IsTemporary("pgxtempx") && !UserSchema("pgxtempx")
  {
    LikePrefix("pgxtempx", "pg_temp_");
    assert "pg_temp_" + "%" == "pg_temp_%";
    assert "pgxtempx"[2] == 'x' && "pg_temp_"[2] == '_' && "pg_toast_temp_"[2] == '_';
  }
}
