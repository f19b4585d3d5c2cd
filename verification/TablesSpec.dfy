/**
  What the table query is meant to return, said directly: for each eligible
  table, its columns, its indexes, its constraints and its parents.
 */
module TablesSpec {
  import opened Wrappers
  import opened Sql
  import opened Text
  import opened Catalog
  import opened TablesQuery

  /** The names of the columns a key vector names, in key order; a slot that names no column is skipped. */
  function NamedColumns(cat: Catalog, relid: nat, keys: seq<int>): seq<string> {
    if keys == [] then []
    else
      (match FindAttribute(cat, relid, keys[0]) case None => [] case Some(a) => [a.attname])
      + NamedColumns(cat, relid, keys[1..])
  }

  function NullIfEmpty<A>(xs: seq<A>): Option<seq<A>> {
    if xs == [] then None else Some(xs)
  }

  function KeysOrNone(keys: Option<seq<int>>): seq<int> {
    if keys.Some? then keys.value else []
  }

  function IndexEntry(cat: Catalog, ix: PgIndex): IndexJson
    requires IndexResolves(cat, ix)
  {
    var own := FindClass(cat, ix.indexrelid).value;
    IndexJson(
      own.relname, FindAm(cat, own.relam).value.amname,
      NullIfEmpty(NamedColumns(cat, ix.indrelid, ix.indkey)),
      ix.indisunique, ix.indisprimary, ix.indisexclusion, ix.indpred.Some?, ix.indisvalid,
      exists inh | inh in cat.inherits :: inh.inhrelid == ix.indexrelid,
      cat.pg.relationSize(ix.indexrelid), cat.pg.indexDef(ix.indexrelid))
  }

  /** The indexes among `ixs` on the table `oid`. */
  function TableIndexes(cat: Catalog, oid: nat, ixs: seq<PgIndex>): seq<IndexJson>
    requires forall ix | ix in ixs :: IndexResolves(cat, ix)
  {
    if ixs == [] then []
    else (if ixs[0].indrelid == oid then [IndexEntry(cat, ixs[0])] else []) + TableIndexes(cat, oid, ixs[1..])
  }

  function ConstraintEntry(cat: Catalog, con: PgConstraint): ConstraintJson {
    ConstraintJson(
      con.conname, ConstraintKind(con.contype),
      NullIfEmpty(NamedColumns(cat, con.conrelid, KeysOrNone(con.conkey))),
      if con.contype == 'f' then Some(cat.pg.regclassText(con.confrelid)) else None,
      if con.contype == 'f' then NullIfEmpty(NamedColumns(cat, con.confrelid, KeysOrNone(con.confkey))) else None,
      cat.pg.constraintDef(con.oid))
  }

  /** The listed constraints among `cons` on the table `oid`. */
  function TableConstraints(cat: Catalog, oid: nat, cons: seq<PgConstraint>): seq<ConstraintJson> {
    if cons == [] then []
    else
      (if cons[0].conrelid == oid && cons[0].contype in {'p', 'u', 'f', 'c', 'x'}
       then [ConstraintEntry(cat, cons[0])] else [])
      + TableConstraints(cat, oid, cons[1..])
  }

  /** `list` is the rows of `xs` that satisfy `p`, each once, strictly increasing by `key`. */
  ghost predicate Lists<A(!new)>(list: seq<A>, xs: seq<A>, p: A -> bool, key: A -> int) {
    && (forall x :: x in list <==> x in xs && p(x))
    && (forall i, j | 0 <= i < j < |list| :: key(list[i]) < key(list[j]))
  }

  function AttributeNumber(a: PgAttribute): int { a.attnum }
  function InheritsNumber(i: PgInherits): int { i.inhseqno }

  function ChildIs(oid: nat): PgInherits -> bool {
    (i: PgInherits) => i.inhrelid == oid
  }

  /** A column a user sees: neither a system column nor a dropped one. */
  function ColumnOf(oid: nat): PgAttribute -> bool {
    (a: PgAttribute) => a.attrelid == oid && 0 < a.attnum && !a.attisdropped
  }

  /** The JSON columns are the table's own columns, in attribute order. */
  ghost predicate ColumnsMatch(cat: Catalog, oid: nat, columns: Option<seq<ColumnJson>>) {
    exists attributes ::
      && Lists(attributes, cat.attributes, ColumnOf(oid), AttributeNumber)
      && columns == NullIfEmpty(Project(attributes, ToColumnJson(cat)))
  }

  /** The JSON parents are the tables the table inherits from, in `inhseqno` order. */
  ghost predicate ParentsMatch(cat: Catalog, oid: nat, parents: Option<seq<ParentJson>>) {
    exists rows ::
      && Lists(rows, cat.inherits, ChildIs(oid), InheritsNumber)
      && parents == NullIfEmpty(Project(rows, ToParentJson(cat)))
  }

  /** An aggregate without ORDER BY: NULL over nothing, otherwise the rows in some order. */
  ghost predicate SomeOrderOf<A>(agg: Option<seq<A>>, xs: seq<A>) {
    match agg
    case None => xs == []
    case Some(list) => xs != [] && Permuted(list, xs)
  }

  /** `row` says about table `c` exactly what the catalog says. */
  ghost predicate RowMatches(cat: Catalog, c: PgClass, row: QueryRow)
    requires WellFormed(cat) && Eligible(cat, c)
  {
    && row.oid == c.oid && row.name == c.relname
    && row.schema == FindNamespace(cat, c.relnamespace).value.nspname
    && row.owner == cat.pg.userById(c.relowner) && row.comment == cat.pg.objDescription(c.oid)
    && row.stats == Stats(cat, c)
    && ColumnsMatch(cat, c.oid, row.columns)
    && SomeOrderOf(row.indexes, TableIndexes(cat, c.oid, cat.indexes))
    && SomeOrderOf(row.constraints, TableConstraints(cat, c.oid, cat.constraints))
    && ParentsMatch(cat, c.oid, row.parentTables)
  }
}
