/**
  The table query equals its direct specification: one row per eligible table,
  in order of schema and name, each with exactly its own columns, indexes,
  constraints and parents, for every physical order of evaluation.
 */
module TablesProof {
  import opened Wrappers
  import opened Sql
  import opened Text
  import opened Catalog
  import opened TablesQuery
  import opened TablesSpec
  import opened KeyVectors

  // ---------- index_data, one index at a time ----------

  lemma FoundClass(cat: Catalog, c: PgClass)
    requires KeysUnique(cat) && c in cat.classes
    ensures FindClass(cat, c.oid) == Some(c)
  {
    UniqueElement(cat.classes, ClassOid, c, FindClass(cat, c.oid).value);
  }

  /** The EXISTS over namespaces says the same as looking the namespace up. */
  lemma ExistsIsLookup(cat: Catalog, relnamespace: nat)
    requires KeysUnique(cat)
    ensures
      (exists n | n in cat.namespaces :: n.oid == relnamespace && UserSchema(n.nspname)) <==>
      (FindNamespace(cat, relnamespace).Some? && UserSchema(FindNamespace(cat, relnamespace).value.nspname))
  {
    var found := FindNamespace(cat, relnamespace);
    if n :| n in cat.namespaces && n.oid == relnamespace && UserSchema(n.nspname) {
      assert NamespaceWith(relnamespace)(n);
      UniqueElement(cat.namespaces, NamespaceOid, n, found.value);
    }
  }

  /** Whether `index_data` keeps an index: always, or when its table's schema passes the early filter. */
  predicate Kept(cat: Catalog, early: bool, ix: PgIndex)
    requires IndexResolves(cat, ix)
  {
    early ==>
      var ns := FindNamespace(cat, FindClass(cat, ix.indrelid).value.relnamespace);
      ns.Some? && UserSchema(ns.value.nspname)
  }

  function EntryRow(cat: Catalog, ix: PgIndex): IndexRow
    requires IndexResolves(cat, ix)
  {
    IndexRow(ix.indrelid, ix.indexrelid, IndexEntry(cat, ix))
  }

  function EntryRows(cat: Catalog, early: bool, ixs: seq<PgIndex>): seq<IndexRow>
    requires forall ix | ix in ixs :: IndexResolves(cat, ix)
  {
    if ixs == [] then []
    else (if Kept(cat, early, ixs[0]) then [EntryRow(cat, ixs[0])] else []) + EntryRows(cat, early, ixs[1..])
  }

  lemma IndexClassJoin(cat: Catalog, ix: PgIndex)
    requires WellFormed(cat) && IndexResolves(cat, ix)
    ensures Join([ix], cat.classes, OnIndexClass, ToIndexAndClass)
        == [IndexAndClass(ix, FindClass(cat, ix.indexrelid).value)]
  {
    var j := UniquePosition(cat.classes, ClassOid, FindClass(cat, ix.indexrelid).value);
    assert forall i | 0 <= i < |cat.classes| && i != j :: ClassOid(cat.classes[i]) != ix.indexrelid;
    JoinOne(ix, cat.classes, OnIndexClass, ToIndexAndClass, j);
  }

  lemma TableClassJoin(cat: Catalog, r: IndexAndClass)
    requires WellFormed(cat) && IndexResolves(cat, r.ix)
    ensures Join([r], cat.classes, OnTable, ToIndexAndTable)
        == [ToIndexAndTable(r, FindClass(cat, r.ix.indrelid).value)]
  {
    var j := UniquePosition(cat.classes, ClassOid, FindClass(cat, r.ix.indrelid).value);
    assert forall i | 0 <= i < |cat.classes| && i != j :: ClassOid(cat.classes[i]) != r.ix.indrelid;
    JoinOne(r, cat.classes, OnTable, ToIndexAndTable, j);
  }

  lemma AmJoin(cat: Catalog, r: IndexAndTable)
    requires WellFormed(cat) && FindAm(cat, r.idx.relam).Some?
    ensures Join([r], cat.ams, OnAm, ToIndexAndAm) == [ToIndexAndAm(r, FindAm(cat, r.idx.relam).value)]
  {
    var j := UniquePosition(cat.ams, AmOid, FindAm(cat, r.idx.relam).value);
    assert forall i | 0 <= i < |cat.ams| && i != j :: AmOid(cat.ams[i]) != r.idx.relam;
    JoinOne(r, cat.ams, OnAm, ToIndexAndAm, j);
  }

  lemma IndexDataOfOne(cat: Catalog, e: Executor, early: bool, ix: PgIndex)
    requires WellFormed(cat) && OnlyReorders(e) && ix in cat.indexes
    ensures
      IndexDataFrom(cat, IndexColumnNames(cat, e), early, [ix]) ==
      if Kept(cat, early, ix) then [EntryRow(cat, ix)] else []
  {
    assert IndexResolves(cat, ix);
    var own, tbl := FindClass(cat, ix.indexrelid).value, FindClass(cat, ix.indrelid).value;
    var am := FindAm(cat, own.relam).value;
    IndexClassJoin(cat, ix);
    TableClassJoin(cat, IndexAndClass(ix, own));
    AmJoin(cat, IndexAndTable(ix, own, tbl));
    NamesJoin(cat, e, IndexAndAm(ix, own, tbl, am));
    var row := IndexAndNames(ix, own, tbl, am, NamesFor(cat, ix));
    ExistsIsLookup(cat, tbl.relnamespace);
    assert InUserSchema(cat, early)(row) <==> Kept(cat, early, ix);
    WhereOne(row, InUserSchema(cat, early));
    assert ToIndexRow(cat)(row) == EntryRow(cat, ix);
  }

  lemma IndexDataAppend(cat: Catalog, names: seq<IndexColumns>, early: bool, a: seq<PgIndex>, b: seq<PgIndex>)
    ensures IndexDataFrom(cat, names, early, a + b)
        == IndexDataFrom(cat, names, early, a) + IndexDataFrom(cat, names, early, b)
  {
    JoinAppend(a, b, cat.classes, OnIndexClass, ToIndexAndClass);
    var a1, b1 := Join(a, cat.classes, OnIndexClass, ToIndexAndClass),
        Join(b, cat.classes, OnIndexClass, ToIndexAndClass);
    JoinAppend(a1, b1, cat.classes, OnTable, ToIndexAndTable);
    var a2, b2 := Join(a1, cat.classes, OnTable, ToIndexAndTable), Join(b1, cat.classes, OnTable, ToIndexAndTable);
    JoinAppend(a2, b2, cat.ams, OnAm, ToIndexAndAm);
    var a3, b3 := Join(a2, cat.ams, OnAm, ToIndexAndAm), Join(b2, cat.ams, OnAm, ToIndexAndAm);
    LeftJoinAppend(a3, b3, names, OnIndexNames, ToIndexAndNames);
    var a4, b4 := LeftJoin(a3, names, OnIndexNames, ToIndexAndNames),
        LeftJoin(b3, names, OnIndexNames, ToIndexAndNames);
    WhereAppend(a4, b4, InUserSchema(cat, early));
    var a5, b5 := Where(a4, InUserSchema(cat, early)), Where(b4, InUserSchema(cat, early));
    ProjectAppend(a5, b5, ToIndexRow(cat));
  }

  /** No join of `index_data` loses or repeats an index. */
  lemma {:induction false} IndexDataIsEntries(cat: Catalog, e: Executor, early: bool, ixs: seq<PgIndex>)
    requires WellFormed(cat) && OnlyReorders(e)
    requires forall ix | ix in ixs :: ix in cat.indexes
    ensures IndexDataFrom(cat, IndexColumnNames(cat, e), early, ixs) == EntryRows(cat, early, ixs)
  {
    var names := IndexColumnNames(cat, e);
    if ixs != [] {
      assert ixs == [ixs[0]] + ixs[1..];
      IndexDataAppend(cat, names, early, [ixs[0]], ixs[1..]);
      IndexDataOfOne(cat, e, early, ixs[0]);
      IndexDataIsEntries(cat, e, early, ixs[1..]);
    }
  }

  // ---------- index_agg ----------

  lemma EntryOfTable(cat: Catalog, early: bool, ix: PgIndex, c: PgClass)
    requires WellFormed(cat) && c in cat.classes && Eligible(cat, c) && IndexResolves(cat, ix)
    ensures
      Where(if Kept(cat, early, ix) then [EntryRow(cat, ix)] else [], HasKey(IndexRowTable, c.oid))
      == if ix.indrelid == c.oid then [EntryRow(cat, ix)] else []
  {
    FoundClass(cat, c);
    var mine := HasKey(IndexRowTable, c.oid);
    if Kept(cat, early, ix) {
      WhereOne(EntryRow(cat, ix), mine);
      HasKeyMeans(IndexRowTable, c.oid, EntryRow(cat, ix));
    } else {
      assert ix.indrelid != c.oid;
    }
  }

  /** For a table in a user schema, the rows grouped under it are its indexes, filtered early or not. */
  lemma {:induction false} EntriesOfTable(cat: Catalog, early: bool, ixs: seq<PgIndex>, c: PgClass)
    requires WellFormed(cat) && c in cat.classes && Eligible(cat, c)
    requires forall ix | ix in ixs :: IndexResolves(cat, ix)
    ensures
      Project(Where(EntryRows(cat, early, ixs), HasKey(IndexRowTable, c.oid)), IndexRowJson)
      == TableIndexes(cat, c.oid, ixs)
  {
    if ixs != [] {
      var mine := HasKey(IndexRowTable, c.oid);
      var ix, tail := ixs[0], EntryRows(cat, early, ixs[1..]);
      EntriesOfTable(cat, early, ixs[1..], c);
      WhereAppend(if Kept(cat, early, ix) then [EntryRow(cat, ix)] else [], tail, mine);
      EntryOfTable(cat, early, ix, c);
      var kept := if ix.indrelid == c.oid then [EntryRow(cat, ix)] else [];
      ProjectAppend(kept, Where(tail, mine), IndexRowJson);
      assert Project(kept, IndexRowJson) == if ix.indrelid == c.oid then [IndexEntry(cat, ix)] else [];
    }
  }

  lemma IndexAggJoin(cat: Catalog, e: Executor, early: bool, row: ClassAndNamespace) returns (shown: Option<IndexAgg>)
    requires WellFormed(cat) && OnlyReorders(e) && row.c in cat.classes && Eligible(cat, row.c)
    ensures LeftJoin([row], IndexAggs(cat, e, early), OnIndexAgg, ToClassAndIndexes) == [ToClassAndIndexes(row, shown)]
    ensures
      SomeOrderOf(if shown.Some? then Some(shown.value.indexes) else None, TableIndexes(cat, row.c.oid, cat.indexes))
  {
    var rows := e.indexRows(IndexData(cat, e, early));
    var own := Where(rows, HasKey(IndexRowTable, row.c.oid));
    LeftJoinGroups(row, row.c.oid, rows, IndexRowTable, AggregateIndexes, OnIndexAgg, ToClassAndIndexes);
    shown := if own == [] then None else Some(AggregateIndexes(row.c.oid, own));
    GroupedIndexes(cat, e, early, row.c);
  }

  lemma GroupedIndexes(cat: Catalog, e: Executor, early: bool, c: PgClass)
    requires WellFormed(cat) && OnlyReorders(e) && c in cat.classes && Eligible(cat, c)
    ensures
      var own := Where(e.indexRows(IndexData(cat, e, early)), HasKey(IndexRowTable, c.oid));
      Permuted(Project(own, IndexRowJson), TableIndexes(cat, c.oid, cat.indexes))
          && |own| == |TableIndexes(cat, c.oid, cat.indexes)|
  {
    var data := IndexData(cat, e, early);
    var rows := e.indexRows(data);
    var mine := HasKey(IndexRowTable, c.oid);
    IndexDataIsEntries(cat, e, early, cat.indexes);
    EntriesOfTable(cat, early, cat.indexes, c);
    assert Permuted(rows, data);
    WherePermuted(rows, data, mine);
    ProjectPermuted(Where(rows, mine), Where(data, mine), IndexRowJson);
    PermutedMembers(Where(rows, mine), Where(data, mine));
  }

  // ---------- constraint_data ----------

  function EntriesIf(cat: Catalog, con: PgConstraint, oid: nat): seq<ConstraintJson> {
    if con.conrelid == oid && ListedKind(con) then [ConstraintEntry(cat, con)] else []
  }

  lemma ConstraintOfTable(cat: Catalog, e: Executor, con: PgConstraint, oid: nat)
    requires WellFormed(cat) && OnlyReorders(e)
    ensures
      Project(Where(if ListedKind(con) then [con] else [], HasKey(ConstraintTable, oid)), ToConstraintJson(cat, e))
      == EntriesIf(cat, con, oid)
  {
    ArrayAggIsNamedColumns(cat, e, con.conrelid, con.conkey);
    ArrayAggIsNamedColumns(cat, e, con.confrelid, con.confkey);
    var f := ToConstraintJson(cat, e);
    var mine := HasKey(ConstraintTable, oid);
    assert f(con) == ConstraintEntry(cat, con);
    if ListedKind(con) {
      WhereOne(con, mine);
      HasKeyMeans(ConstraintTable, oid, con);
      assert Project([con], f) == [ConstraintEntry(cat, con)];
      assert Project<PgConstraint, ConstraintJson>([], f) == [];
    } else {
      assert Where([], mine) == [];
      assert Project<PgConstraint, ConstraintJson>([], f) == [];
    }
  }

  lemma {:induction false} ConstraintsOfTable(cat: Catalog, e: Executor, cons: seq<PgConstraint>, oid: nat)
    requires WellFormed(cat) && OnlyReorders(e)
    ensures
      Project(Where(Where(cons, ListedKind), HasKey(ConstraintTable, oid)), ToConstraintJson(cat, e))
      == TableConstraints(cat, oid, cons)
  {
    if cons != [] {
      var mine := HasKey(ConstraintTable, oid);
      var head := if ListedKind(cons[0]) then [cons[0]] else [];
      var tail := Where(cons[1..], ListedKind);
      ConstraintsOfTable(cat, e, cons[1..], oid);
      ConstraintOfTable(cat, e, cons[0], oid);
      WhereAppend(head, tail, mine);
      ProjectAppend(Where(head, mine), Where(tail, mine), ToConstraintJson(cat, e));
      assert TableConstraints(cat, oid, cons) == EntriesIf(cat, cons[0], oid) + TableConstraints(cat, oid, cons[1..]);
    }
  }

  lemma ConstraintAggJoin(cat: Catalog, e: Executor, row: ClassAndIndexes) returns (shown: Option<ConstraintAgg>)
    requires WellFormed(cat) && OnlyReorders(e)
    ensures LeftJoin([row], ConstraintData(cat, e), OnConstraintAgg, ToClassAndConstraints)
        == [ToClassAndConstraints(row, shown)]
    ensures
      SomeOrderOf(if shown.Some? then Some(shown.value.constraints) else None,
          TableConstraints(cat, row.c.oid, cat.constraints))
  {
    var rows := e.constraints(Where(cat.constraints, ListedKind));
    var own := Where(rows, HasKey(ConstraintTable, row.c.oid));
    LeftJoinGroups(row, row.c.oid, rows, ConstraintTable, AggregateConstraints(cat, e), OnConstraintAgg,
        ToClassAndConstraints);
    shown := if own == [] then None else Some(AggregateConstraints(cat, e)(row.c.oid, own));
    GroupedConstraints(cat, e, row.c.oid);
  }

  lemma GroupedConstraints(cat: Catalog, e: Executor, oid: nat)
    requires WellFormed(cat) && OnlyReorders(e)
    ensures
      var own := Where(e.constraints(Where(cat.constraints, ListedKind)), HasKey(ConstraintTable, oid));
      && Permuted(Project(own, ToConstraintJson(cat, e)), TableConstraints(cat, oid, cat.constraints))
      && |own| == |TableConstraints(cat, oid, cat.constraints)|
  {
    var data := Where(cat.constraints, ListedKind);
    var rows := e.constraints(data);
    var mine := HasKey(ConstraintTable, oid);
    ConstraintsOfTable(cat, e, cat.constraints, oid);
    assert Permuted(rows, data);
    WherePermuted(rows, data, mine);
    ProjectPermuted(Where(rows, mine), Where(data, mine), ToConstraintJson(cat, e));
    PermutedMembers(Where(rows, mine), Where(data, mine));
  }

  // ---------- inheritance_parents ----------

  lemma {:induction false} WhereKeepsUnique<A(!new), K>(xs: seq<A>, key: A -> K, p: A -> bool)
    requires Unique(xs, key)
    ensures Unique(Where(xs, p), key)
  {
    if xs != [] {
      WhereKeepsUnique(xs[1..], key, p);
      forall x | x in Where(xs[1..], p) ensures key(x) != key(xs[0]) {
        WhereMembers(xs[1..], p, x);
      }
    }
  }

  /** Distinct numbers sorted by `<=` rise strictly, and sorting keeps exactly the rows. */
  lemma SortedLists<A(!new)>(sorted: seq<A>, rows: seq<A>, xs: seq<A>, p: A -> bool, key: A -> int, le: (A, A) -> bool)
    requires Permuted(rows, Where(xs, p)) && sorted == OrderBy(rows, le)
    requires forall a, b :: le(a, b) <==> key(a) <= key(b)
    requires Unique(Where(xs, p), key)
    ensures Lists(sorted, xs, p, key)
  {
    OrderByPermutes(rows, le);
    OrderBySorts(rows, le);
    var own := Where(xs, p);
    assert Permuted(sorted, own);
    PermutedMembers(sorted, own);
    forall x ensures x in sorted <==> x in xs && p(x) {
      WhereMembers(xs, p, x);
    }
    PermutedKeepsUnique(own, sorted, key);
    forall i, j | 0 <= i < j < |sorted| ensures key(sorted[i]) < key(sorted[j]) {
      assert le(sorted[i], sorted[j]);
    }
  }

  lemma {:induction false} PermutedKeepsUnique<A(!new), K>(xs: seq<A>, ys: seq<A>, key: A -> K)
    requires Permuted(xs, ys) && Unique(xs, key)
    ensures Unique(ys, key)
    decreases |xs|
  {
    PermutedMembers(xs, ys);
    if xs != [] {
      assert xs[0] in ys;
      var p :| 0 <= p < |ys| && ys[p] == xs[0];
      var rest := ys[..p] + ys[p + 1..];
      PermutedRest(xs, ys, p);
      PermutedKeepsUnique(xs[1..], rest, key);
      PermutedMembers(xs[1..], rest);
      forall i, j | 0 <= i < j < |ys| ensures key(ys[i]) != key(ys[j]) {
        var i' := if i < p then i else i - 1;
        var j' := if j < p then j else j - 1;
        if i == p {
          assert rest[j'] == ys[j] && rest[j'] in xs[1..];
        } else if j == p {
          assert rest[i'] == ys[i] && rest[i'] in xs[1..];
        } else {
          assert rest[i'] == ys[i] && rest[j'] == ys[j];
        }
      }
    }
  }

  lemma InheritanceJoin(cat: Catalog, e: Executor, row: ClassAndConstraints) returns (shown: Option<InheritanceAgg>)
    requires WellFormed(cat) && OnlyReorders(e)
    ensures LeftJoin([row], InheritanceParents(cat, e), OnInheritanceAgg, ToClassAndParents)
        == [ToClassAndParents(row, shown)]
    ensures ParentsMatch(cat, row.c.oid, if shown.Some? then Some(shown.value.parentTables) else None)
  {
    var rows := e.inherits(cat.inherits);
    var own := Where(rows, HasKey(InheritsChild, row.c.oid));
    LeftJoinGroups(row, row.c.oid, rows, InheritsChild, AggregateParents(cat), OnInheritanceAgg, ToClassAndParents);
    shown := if own == [] then None else Some(AggregateParents(cat)(row.c.oid, own));
    ParentsSorted(cat, e, row.c.oid);
    var sorted := OrderBy(own, InheritsLe);
    OrderByPermutes(own, InheritsLe);
    PermutedMembers(sorted, own);
    assert Lists(sorted, cat.inherits, ChildIs(row.c.oid), InheritsNumber);
  }

  lemma ParentsSorted(cat: Catalog, e: Executor, oid: nat)
    requires WellFormed(cat) && OnlyReorders(e)
    ensures
      Lists(OrderBy(Where(e.inherits(cat.inherits), HasKey(InheritsChild, oid)), InheritsLe),
            cat.inherits, ChildIs(oid), InheritsNumber)
  {
    var rows := e.inherits(cat.inherits);
    var mine := HasKey(InheritsChild, oid);
    assert Permuted(rows, cat.inherits);
    WherePermuted(rows, cat.inherits, mine);
    WhereSame(cat.inherits, mine, ChildIs(oid));
    WhereKeepsUnique(cat.inherits, InheritsKey, ChildIs(oid));
    var own := Where(cat.inherits, ChildIs(oid));
    forall i, j | 0 <= i < j < |own| ensures InheritsNumber(own[i]) != InheritsNumber(own[j]) {
      WhereMembers(cat.inherits, ChildIs(oid), own[i]);
      WhereMembers(cat.inherits, ChildIs(oid), own[j]);
      assert InheritsKey(own[i]) != InheritsKey(own[j]);
    }
    SortedLists(OrderBy(Where(rows, mine), InheritsLe), Where(rows, mine), cat.inherits, ChildIs(oid), InheritsNumber,
        InheritsLe);
  }

  // ---------- columns ----------

  lemma ColumnsSubqueryMatches(cat: Catalog, e: Executor, oid: nat)
    requires WellFormed(cat) && OnlyReorders(e)
    ensures ColumnsMatch(cat, oid, ColumnsSubquery(cat, e, oid))
  {
    var live := ColumnOf(oid);
    var own := Where(cat.attributes, live);
    WhereSame(cat.attributes, LiveColumn(oid), live);
    var rows := e.attributes(own);
    assert Permuted(rows, own);
    WhereKeepsUnique(cat.attributes, AttributeKey, live);
    forall i, j | 0 <= i < j < |own| ensures AttributeNumber(own[i]) != AttributeNumber(own[j]) {
      WhereMembers(cat.attributes, live, own[i]);
      WhereMembers(cat.attributes, live, own[j]);
      assert AttributeKey(own[i]) != AttributeKey(own[j]);
    }
    var sorted := OrderBy(rows, AttributeLe);
    SortedLists(sorted, rows, cat.attributes, live, AttributeNumber, AttributeLe);
    OrderByPermutes(rows, AttributeLe);
    PermutedMembers(sorted, rows);
    assert Lists(sorted, cat.attributes, live, AttributeNumber);
    assert rows == [] <==> sorted == [];
  }

  // ---------- the outer query, one class at a time ----------

  /** The rows the outer query makes of some of the classes. */
  function OuterRows(cat: Catalog, e: Executor, early: bool, classes: seq<PgClass>): seq<QueryRow> {
    RowsFrom(cat, e, IndexAggs(cat, e, early), ConstraintData(cat, e), InheritanceParents(cat, e), classes)
  }

  lemma RowsAppend(
    cat: Catalog, e: Executor, ias: seq<IndexAgg>, cds: seq<ConstraintAgg>, ips: seq<InheritanceAgg>,
    a: seq<PgClass>, b: seq<PgClass>)
    ensures RowsFrom(cat, e, ias, cds, ips, a + b)
        == RowsFrom(cat, e, ias, cds, ips, a) + RowsFrom(cat, e, ias, cds, ips, b)
  {
    JoinAppend(a, b, cat.namespaces, OnNamespace, ToClassAndNamespace);
    var a1, b1 := Join(a, cat.namespaces, OnNamespace, ToClassAndNamespace),
        Join(b, cat.namespaces, OnNamespace, ToClassAndNamespace);
    LeftJoinAppend(a1, b1, ias, OnIndexAgg, ToClassAndIndexes);
    var a2, b2 := LeftJoin(a1, ias, OnIndexAgg, ToClassAndIndexes), LeftJoin(b1, ias, OnIndexAgg, ToClassAndIndexes);
    LeftJoinAppend(a2, b2, cds, OnConstraintAgg, ToClassAndConstraints);
    var a3, b3 := LeftJoin(a2, cds, OnConstraintAgg, ToClassAndConstraints),
        LeftJoin(b2, cds, OnConstraintAgg, ToClassAndConstraints);
    LeftJoinAppend(a3, b3, ips, OnInheritanceAgg, ToClassAndParents);
    var a4, b4 := LeftJoin(a3, ips, OnInheritanceAgg, ToClassAndParents),
        LeftJoin(b3, ips, OnInheritanceAgg, ToClassAndParents);
    WhereAppend(a4, b4, Listed);
    ProjectAppend(Where(a4, Listed), Where(b4, Listed), ToQueryRow(cat, e));
  }

  lemma NamespaceJoin(cat: Catalog, c: PgClass)
    requires WellFormed(cat)
    ensures
      Join([c], cat.namespaces, OnNamespace, ToClassAndNamespace) ==
      match FindNamespace(cat, c.relnamespace) case None => [] case Some(n) => [ClassAndNamespace(c, n)]
  {
    var found := FindNamespace(cat, c.relnamespace);
    if found.Some? {
      var j := UniquePosition(cat.namespaces, NamespaceOid, found.value);
      assert forall i | 0 <= i < |cat.namespaces| && i != j :: NamespaceOid(cat.namespaces[i]) != c.relnamespace;
      JoinOne(c, cat.namespaces, OnNamespace, ToClassAndNamespace, j);
    } else {
      assert forall n | n in cat.namespaces :: !NamespaceWith(c.relnamespace)(n);
      JoinNone(c, cat.namespaces, OnNamespace, ToClassAndNamespace);
    }
  }

  lemma RowsFromOne(
    cat: Catalog, e: Executor, ias: seq<IndexAgg>, cds: seq<ConstraintAgg>, ips: seq<InheritanceAgg>,
    w: ClassAndParents)
    requires Join([w.c], cat.namespaces, OnNamespace, ToClassAndNamespace) == [ClassAndNamespace(w.c, w.n)]
    requires LeftJoin([ClassAndNamespace(w.c, w.n)], ias, OnIndexAgg, ToClassAndIndexes)
        == [ClassAndIndexes(w.c, w.n, w.ia)]
    requires LeftJoin([ClassAndIndexes(w.c, w.n, w.ia)], cds, OnConstraintAgg, ToClassAndConstraints)
        == [ClassAndConstraints(w.c, w.n, w.ia, w.cd)]
    requires LeftJoin([ClassAndConstraints(w.c, w.n, w.ia, w.cd)], ips, OnInheritanceAgg, ToClassAndParents) == [w]
    requires Listed(w)
    ensures RowsFrom(cat, e, ias, cds, ips, [w.c]) == [ToQueryRow(cat, e)(w)]
  {
    WhereOne(w, Listed);
    assert Project([w], ToQueryRow(cat, e)) == [ToQueryRow(cat, e)(w)];
  }

  /** The joins around one eligible class: one row, with what each outer join shows. */
  lemma JoinsOfEligible(cat: Catalog, e: Executor, early: bool, c: PgClass) returns (whole: ClassAndParents)
    requires WellFormed(cat) && OnlyReorders(e) && c in cat.classes && Eligible(cat, c)
    ensures whole.c == c && whole.n == FindNamespace(cat, c.relnamespace).value
    ensures OuterRows(cat, e, early, [c]) == [ToQueryRow(cat, e)(whole)]
    ensures SomeOrderOf(if whole.ia.Some? then Some(whole.ia.value.indexes) else None,
        TableIndexes(cat, c.oid, cat.indexes))
    ensures SomeOrderOf(if whole.cd.Some? then Some(whole.cd.value.constraints) else None,
        TableConstraints(cat, c.oid, cat.constraints))
    ensures ParentsMatch(cat, c.oid, if whole.ip.Some? then Some(whole.ip.value.parentTables) else None)
  {
    var n := FindNamespace(cat, c.relnamespace).value;
    NamespaceJoin(cat, c);
    var ia := IndexAggJoin(cat, e, early, ClassAndNamespace(c, n));
    var cd := ConstraintAggJoin(cat, e, ClassAndIndexes(c, n, ia));
    var ip := InheritanceJoin(cat, e, ClassAndConstraints(c, n, ia, cd));
    whole := ClassAndParents(c, n, ia, cd, ip);
    RowsFromOne(cat, e, IndexAggs(cat, e, early), ConstraintData(cat, e), InheritanceParents(cat, e), whole);
  }

  /** An eligible class contributes one row, and it is the right one. */
  lemma EligibleGivesItsRow(cat: Catalog, e: Executor, early: bool, c: PgClass) returns (row: QueryRow)
    requires WellFormed(cat) && OnlyReorders(e) && c in cat.classes && Eligible(cat, c)
    ensures OuterRows(cat, e, early, [c]) == [row]
    ensures RowMatches(cat, c, row)
  {
    var whole := JoinsOfEligible(cat, e, early, c);
    ColumnsSubqueryMatches(cat, e, c.oid);
    row := ToQueryRow(cat, e)(whole);
  }

  lemma {:induction false} LeftJoinKeepsLeft<A, B, C>(
    xs: seq<A>, ys: seq<B>, on: (A, B) -> bool, mk: (A, Option<B>) -> C, z: C)
    requires z in LeftJoin(xs, ys, on, mk)
    ensures exists x, y :: x in xs && z == mk(x, y)
  {
    var head := PairOuter(xs[0], Matching(xs[0], ys, on), mk);
    if z in head {
      assert xs[0] in xs;
    } else {
      LeftJoinKeepsLeft(xs[1..], ys, on, mk, z);
      var x, y :| x in xs[1..] && z == mk(x, y);
      assert x in xs;
    }
  }

  /** The three outer joins of the query, on the rows of classes and namespaces. */
  function OuterJoins(
    ias: seq<IndexAgg>, cds: seq<ConstraintAgg>, ips: seq<InheritanceAgg>, r1: seq<ClassAndNamespace>
  ): seq<ClassAndParents>
  {
    var r2 := LeftJoin(r1, ias, OnIndexAgg, ToClassAndIndexes);
    var r3 := LeftJoin(r2, cds, OnConstraintAgg, ToClassAndConstraints);
    LeftJoin(r3, ips, OnInheritanceAgg, ToClassAndParents)
  }

  /** The outer joins around one row of classes and namespaces keep that class and that namespace. */
  lemma JoinsKeepClass(
    ias: seq<IndexAgg>, cds: seq<ConstraintAgg>, ips: seq<InheritanceAgg>, c: PgClass, n: PgNamespace,
    r: ClassAndParents)
    requires r in OuterJoins(ias, cds, ips, [ClassAndNamespace(c, n)])
    ensures r.c == c && r.n == n
  {
    var r2 := LeftJoin([ClassAndNamespace(c, n)], ias, OnIndexAgg, ToClassAndIndexes);
    var r3 := LeftJoin(r2, cds, OnConstraintAgg, ToClassAndConstraints);
    LeftJoinKeepsLeft(r3, ips, OnInheritanceAgg, ToClassAndParents, r);
    var x3, ip :| x3 in r3 && r == ToClassAndParents(x3, ip);
    LeftJoinKeepsLeft(r2, cds, OnConstraintAgg, ToClassAndConstraints, x3);
    var x2, cd :| x2 in r2 && x3 == ToClassAndConstraints(x2, cd);
    LeftJoinKeepsLeft([ClassAndNamespace(c, n)], ias, OnIndexAgg, ToClassAndIndexes, x2);
  }

  lemma UnlistedGivesNothing(
    cat: Catalog, e: Executor, ias: seq<IndexAgg>, cds: seq<ConstraintAgg>, ips: seq<InheritanceAgg>, c: PgClass,
    n: PgNamespace)
    requires Join([c], cat.namespaces, OnNamespace, ToClassAndNamespace) == [ClassAndNamespace(c, n)]
    requires !(c.relkind in {'r', 'p'} && UserSchema(n.nspname))
    ensures RowsFrom(cat, e, ias, cds, ips, [c]) == []
  {
    var r4 := OuterJoins(ias, cds, ips, [ClassAndNamespace(c, n)]);
    forall r | r in r4 ensures !Listed(r) {
      JoinsKeepClass(ias, cds, ips, c, n, r);
    }
    WhereNone(r4, Listed);
  }

  /** A class that is not eligible contributes nothing, whatever is grouped under its oid. */
  lemma IneligibleGivesNothing(cat: Catalog, e: Executor, early: bool, c: PgClass)
    requires WellFormed(cat) && !Eligible(cat, c)
    ensures OuterRows(cat, e, early, [c]) == []
  {
    NamespaceJoin(cat, c);
    var found := FindNamespace(cat, c.relnamespace);
    if found.Some? {
      UnlistedGivesNothing(cat, e, IndexAggs(cat, e, early), ConstraintData(cat, e), InheritanceParents(cat, e), c,
          found.value);
    }
  }

  // ---------- the whole query ----------

  function EligibleIn(cat: Catalog): PgClass -> bool {
    (c: PgClass) => Eligible(cat, c)
  }

  /** `rows` says, position by position, what the catalog says about `classes`. */
  ghost predicate RowsMatch(cat: Catalog, classes: seq<PgClass>, rows: seq<QueryRow>)
    requires WellFormed(cat)
  {
    && |rows| == |classes|
    && forall i | 0 <= i < |classes| :: Eligible(cat, classes[i]) && RowMatches(cat, classes[i], rows[i])
  }

  lemma OuterRowsCons(cat: Catalog, e: Executor, early: bool, classes: seq<PgClass>)
    requires classes != []
    ensures OuterRows(cat, e, early, classes)
        == OuterRows(cat, e, early, [classes[0]]) + OuterRows(cat, e, early, classes[1..])
  {
    assert classes == [classes[0]] + classes[1..];
    RowsAppend(cat, e, IndexAggs(cat, e, early), ConstraintData(cat, e), InheritanceParents(cat, e), [classes[0]],
        classes[1..]);
  }

  lemma RowsMatchCons(cat: Catalog, c: PgClass, classes: seq<PgClass>, row: QueryRow, rows: seq<QueryRow>)
    requires WellFormed(cat) && RowsMatch(cat, classes, rows) && Eligible(cat, c) && RowMatches(cat, c, row)
    ensures RowsMatch(cat, [c] + classes, [row] + rows)
  {
    var cs, rs := [c] + classes, [row] + rows;
    forall i | 0 <= i < |cs| ensures Eligible(cat, cs[i]) && RowMatches(cat, cs[i], rs[i]) {
      if i > 0 {
        assert cs[i] == classes[i - 1] && rs[i] == rows[i - 1];
      }
    }
  }

  /** Before sorting: one matching row per eligible class, in catalog order, and no other row. */
  lemma {:induction false} OuterRowsMatch(cat: Catalog, e: Executor, early: bool, classes: seq<PgClass>)
    requires WellFormed(cat) && OnlyReorders(e)
    requires forall c | c in classes :: c in cat.classes
    ensures RowsMatch(cat, Where(classes, EligibleIn(cat)), OuterRows(cat, e, early, classes))
  {
    if classes == [] {
      assert OuterRows(cat, e, early, []) == [];
    } else {
      var c, rest := classes[0], classes[1..];
      OuterRowsCons(cat, e, early, classes);
      OuterRowsMatch(cat, e, early, rest);
      var tail := OuterRows(cat, e, early, rest);
      if Eligible(cat, c) {
        var row := EligibleGivesItsRow(cat, e, early, c);
        RowsMatchCons(cat, c, Where(rest, EligibleIn(cat)), row, tail);
      } else {
        IneligibleGivesNothing(cat, e, early, c);
        assert [] + tail == tail;
        assert [] + Where(rest, EligibleIn(cat)) == Where(rest, EligibleIn(cat));
      }
    }
  }
}
