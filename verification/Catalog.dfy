/**
  The catalog relations the table query reads, as one fixed snapshot, and the
  keys and references PostgreSQL guarantees for them.
 */
module Catalog {
  import opened Wrappers
  import opened Sql
  import opened Text

  datatype PgNamespace = PgNamespace(oid: nat, nspname: string)

  datatype PgClass = PgClass(
    oid: nat, relname: string, relnamespace: nat, relkind: char, relam: nat,
    relowner: nat, reltuples: int, reltoastrelid: nat)

  datatype PgAm = PgAm(oid: nat, amname: string)

  /** `indpred` only matters for being NULL or not. */
  datatype PgIndex = PgIndex(
    indexrelid: nat, indrelid: nat, indkey: seq<int>,
    indisunique: bool, indisprimary: bool, indisexclusion: bool, indpred: Option<string>, indisvalid: bool)

  datatype PgAttribute = PgAttribute(
    attrelid: nat, attnum: int, attname: string,
    atttypid: nat, atttypmod: int, attnotnull: bool, attinhcount: int, attisdropped: bool)

  /** `conkey` and `confkey` are NULL when the constraint has no such columns. */
  datatype PgConstraint = PgConstraint(
    oid: nat, conname: string, contype: char, conrelid: nat,
    conkey: Option<seq<int>>, confrelid: nat, confkey: Option<seq<int>>)

  datatype PgInherits = PgInherits(inhrelid: nat, inhparent: nat, inhseqno: int)

  /** What PostgreSQL computes itself, left uninterpreted; sizes are NULL for a relation that does not exist. */
  datatype Builtins = Builtins(
    regclassText: nat -> string,
    userById: nat -> string,
    objDescription: nat -> Option<string>,
    relationSize: nat -> Option<nat>,
    totalRelationSize: nat -> Option<nat>,
    formatType: (nat, int) -> string,
    indexDef: nat -> string,
    constraintDef: nat -> string)

  datatype Catalog = Catalog(
    namespaces: seq<PgNamespace>, classes: seq<PgClass>, ams: seq<PgAm>, indexes: seq<PgIndex>,
    attributes: seq<PgAttribute>, constraints: seq<PgConstraint>, inherits: seq<PgInherits>,
    pg: Builtins)

  // ---------- keys ----------

  function NamespaceOid(n: PgNamespace): nat { n.oid }
  function NamespaceName(n: PgNamespace): string { n.nspname }
  function ClassOid(c: PgClass): nat { c.oid }
  function ClassName(c: PgClass): (nat, string) { (c.relnamespace, c.relname) }
  function AmOid(a: PgAm): nat { a.oid }
  function IndexOid(ix: PgIndex): nat { ix.indexrelid }
  function AttributeKey(a: PgAttribute): (nat, int) { (a.attrelid, a.attnum) }
  function InheritsKey(i: PgInherits): (nat, int) { (i.inhrelid, i.inhseqno) }

  ghost predicate KeysUnique(cat: Catalog) {
    && Unique(cat.namespaces, NamespaceOid) && Unique(cat.namespaces, NamespaceName)
    && Unique(cat.classes, ClassOid) && Unique(cat.classes, ClassName)
    && Unique(cat.ams, AmOid) && Unique(cat.indexes, IndexOid)
    && Unique(cat.attributes, AttributeKey) && Unique(cat.inherits, InheritsKey)
  }

  // ---------- references ----------

  function ClassWith(oid: nat): PgClass -> bool {
    (c: PgClass) => c.oid == oid
  }

  function NamespaceWith(oid: nat): PgNamespace -> bool {
    (n: PgNamespace) => n.oid == oid
  }

  function AmWith(oid: nat): PgAm -> bool {
    (a: PgAm) => a.oid == oid
  }

  function AttributeWith(relid: nat, attnum: int): PgAttribute -> bool {
    (a: PgAttribute) => a.attrelid == relid && a.attnum == attnum
  }

  function FindClass(cat: Catalog, oid: nat): Option<PgClass> { Find(cat.classes, ClassWith(oid)) }
  function FindNamespace(cat: Catalog, oid: nat): Option<PgNamespace> { Find(cat.namespaces, NamespaceWith(oid)) }
  function FindAm(cat: Catalog, oid: nat): Option<PgAm> { Find(cat.ams, AmWith(oid)) }
  function FindAttribute(cat: Catalog, relid: nat, attnum: int): Option<PgAttribute> {
    Find(cat.attributes, AttributeWith(relid, attnum))
  }

  /** An index has its own class row of an index kind, its table's class row, and its access method. */
  predicate IndexResolves(cat: Catalog, ix: PgIndex) {
    var own := FindClass(cat, ix.indexrelid);
    && own.Some? && own.value.relkind in {'i', 'I'}
    && FindClass(cat, ix.indrelid).Some?
    && FindAm(cat, own.value.relam).Some?
  }

  ghost predicate WellFormed(cat: Catalog) {
    && KeysUnique(cat)
    && forall ix | ix in cat.indexes :: IndexResolves(cat, ix)
  }

  /** Every slot of the key vector that is not an expression names a column; no column has number 0. */
  ghost predicate KeyColumnsResolve(cat: Catalog, relid: nat, keys: seq<int>) {
    && (forall a | a in cat.attributes :: a.attnum != 0)
    && (forall k | k in keys && k != 0 :: FindAttribute(cat, relid, k).Some?)
  }

  // ---------- user schemas ----------

  /** The schema filter as the query writes it, twice. */
  predicate UserSchema(nspname: string) {
    && nspname !in {"pg_catalog", "information_schema", "pg_toast"}
    && !Like(nspname, "pg_temp_%")
    && !Like(nspname, "pg_toast_temp_%")
  }

  /** The rows of a relation that a listed table's outer WHERE lets through. */
  predicate Eligible(cat: Catalog, c: PgClass) {
    && c.relkind in {'r', 'p'}
    && FindNamespace(cat, c.relnamespace).Some?
    && UserSchema(FindNamespace(cat, c.relnamespace).value.nspname)
  }
}
