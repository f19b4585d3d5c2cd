/**
  From a key vector to column names: UNNEST WITH ORDINALITY, inner join on the
  attributes, ordered aggregation and the outer join give the vector's columns
  in key order.
 */
module KeyVectors {
  import opened Wrappers
  import opened Sql
  import opened Text
  import opened Catalog
  import opened TablesQuery
  import opened TablesSpec

  /** A row with a given key sits at one position, and no other position has that key. */
  lemma UniquePosition<A, K>(xs: seq<A>, key: A -> K, x: A) returns (j: nat)
    requires Unique(xs, key) && x in xs
    ensures j < |xs| && xs[j] == x
    ensures forall i | 0 <= i < |xs| && i != j :: key(xs[i]) != key(x)
  {
    j :| 0 <= j < |xs| && xs[j] == x;
  }

  ghost predicate Rising(slots: seq<Slot>) {
    forall i, j | 0 <= i < j < |slots| :: slots[i].n < slots[j].n
  }

  function AttnumsOf(slots: seq<Slot>): (keys: seq<int>)
    ensures |keys| == |slots|
    ensures forall i | 0 <= i < |slots| :: keys[i] == slots[i].attnum
  {
    seq(|slots|, i requires 0 <= i < |slots| => slots[i].attnum)
  }

  /** One slot joins with the attribute it names, or with nothing. */
  lemma SlotJoin<R>(cat: Catalog, relid: nat, slot: Slot, mk: (Slot, PgAttribute) -> R)
    requires Unique(cat.attributes, AttributeKey)
    ensures
      Join([slot], cat.attributes, SlotOf(relid), mk) ==
      match FindAttribute(cat, relid, slot.attnum) case None => [] case Some(a) => [mk(slot, a)]
  {
    var found := FindAttribute(cat, relid, slot.attnum);
    if found.Some? {
      var j := UniquePosition(cat.attributes, AttributeKey, found.value);
      JoinOne(slot, cat.attributes, SlotOf(relid), mk, j);
    } else {
      assert forall a | a in cat.attributes :: !AttributeWith(relid, slot.attnum)(a);
      JoinNone(slot, cat.attributes, SlotOf(relid), mk);
    }
  }

  ghost predicate RisingBy<R>(rows: seq<R>, num: R -> nat) {
    forall i, j | 0 <= i < j < |rows| :: num(rows[i]) < num(rows[j])
  }

  /** `num` and `name` read back what `mk` was given. */
  ghost predicate ReadsBack<R>(mk: (Slot, PgAttribute) -> R, num: R -> nat, name: R -> string) {
    forall slot, a :: num(mk(slot, a)) == slot.n && name(mk(slot, a)) == a.attname
  }

  lemma SlotsJoinCons<R>(cat: Catalog, relid: nat, slots: seq<Slot>, mk: (Slot, PgAttribute) -> R)
    requires Unique(cat.attributes, AttributeKey) && slots != []
    ensures
      Join(slots, cat.attributes, SlotOf(relid), mk) ==
      (match FindAttribute(cat, relid, slots[0].attnum) case None => [] case Some(a) => [mk(slots[0], a)])
      + Join(slots[1..], cat.attributes, SlotOf(relid), mk)
  {
    assert slots == [slots[0]] + slots[1..];
    JoinAppend([slots[0]], slots[1..], cat.attributes, SlotOf(relid), mk);
    SlotJoin(cat, relid, slots[0], mk);
  }

  lemma {:induction false} SlotsJoinAbove<R>(
    cat: Catalog, relid: nat, slots: seq<Slot>, mk: (Slot, PgAttribute) -> R, num: R -> nat, name: R -> string,
    low: nat)
    requires Unique(cat.attributes, AttributeKey) && ReadsBack(mk, num, name)
    requires forall i | 0 <= i < |slots| :: low < slots[i].n
    ensures forall r | r in Join(slots, cat.attributes, SlotOf(relid), mk) :: low < num(r)
  {
    if slots != [] {
      SlotsJoinCons(cat, relid, slots, mk);
      SlotsJoinAbove(cat, relid, slots[1..], mk, num, name, low);
    }
  }

  /** The joined rows come out in rising ordinality. */
  lemma {:induction false} SlotsJoinRises<R>(
    cat: Catalog, relid: nat, slots: seq<Slot>, mk: (Slot, PgAttribute) -> R, num: R -> nat, name: R -> string)
    requires Unique(cat.attributes, AttributeKey) && Rising(slots) && ReadsBack(mk, num, name)
    ensures RisingBy(Join(slots, cat.attributes, SlotOf(relid), mk), num)
  {
    if slots != [] {
      var tail := Join(slots[1..], cat.attributes, SlotOf(relid), mk);
      SlotsJoinCons(cat, relid, slots, mk);
      SlotsJoinRises(cat, relid, slots[1..], mk, num, name);
      SlotsJoinAbove(cat, relid, slots[1..], mk, num, name, slots[0].n);
      assert forall i | 0 <= i < |tail| :: tail[i] in tail;
    }
  }

  lemma NamedColumnsCons(cat: Catalog, relid: nat, slots: seq<Slot>)
    requires slots != []
    ensures
      NamedColumns(cat, relid, AttnumsOf(slots)) ==
      (match FindAttribute(cat, relid, slots[0].attnum) case None => [] case Some(a) => [a.attname])
      + NamedColumns(cat, relid, AttnumsOf(slots[1..]))
  {
    assert AttnumsOf(slots)[1..] == AttnumsOf(slots[1..]);
  }

  /** The joined rows carry the named columns, in key order. */
  lemma {:induction false} SlotsJoinNames<R>(
    cat: Catalog, relid: nat, slots: seq<Slot>, mk: (Slot, PgAttribute) -> R, num: R -> nat, name: R -> string)
    requires Unique(cat.attributes, AttributeKey) && ReadsBack(mk, num, name)
    ensures Project(Join(slots, cat.attributes, SlotOf(relid), mk), name) == NamedColumns(cat, relid, AttnumsOf(slots))
  {
    if slots != [] {
      var tail := Join(slots[1..], cat.attributes, SlotOf(relid), mk);
      SlotsJoinCons(cat, relid, slots, mk);
      SlotsJoinNames(cat, relid, slots[1..], mk, num, name);
      NamedColumnsCons(cat, relid, slots);
      var found := FindAttribute(cat, relid, slots[0].attnum);
      if found.Some? {
        ProjectAppend([mk(slots[0], found.value)], tail, name);
      }
    }
  }

  lemma UnnestRises(keys: seq<int>)
    ensures Rising(Unnest(keys)) && AttnumsOf(Unnest(keys)) == keys
  {
  }

  // ---------- constraint columns ----------

  function NamedKeyNum(k: NamedKey): nat { k.n }

  lemma RisingRestores(shuffled: seq<NamedKey>, rows: seq<NamedKey>)
    requires Permuted(shuffled, rows) && RisingBy(rows, NamedKeyNum)
    ensures OrderBy(shuffled, NamedKeyLe) == rows
  {
    assert Sorted(rows, NamedKeyLe) by {
      forall i, j | 0 <= i < j < |rows| ensures NamedKeyLe(rows[i], rows[j]) {
        assert NamedKeyNum(rows[i]) < NamedKeyNum(rows[j]);
      }
    }
    OrderByRestores(shuffled, rows, NamedKeyLe);
  }

  /** A correlated `array_agg(attname ORDER BY n)` is the named columns, NULL when there are none. */
  lemma ArrayAggIsNamedColumns(cat: Catalog, e: Executor, relid: nat, keys: Option<seq<int>>)
    requires Unique(cat.attributes, AttributeKey) && OnlyReorders(e)
    ensures ArrayAggNames(cat, e, relid, keys) == NullIfEmpty(NamedColumns(cat, relid, KeysOrNone(keys)))
  {
    var slots := Unnest(KeysOrNone(keys));
    UnnestRises(KeysOrNone(keys));
    SlotsJoinRises(cat, relid, slots, ToNamedKey, NamedKeyNum, NamedKeyName);
    SlotsJoinNames(cat, relid, slots, ToNamedKey, NamedKeyNum, NamedKeyName);
    var rows := NamedKeys(cat, relid, keys);
    assert Permuted(e.namedKeys(rows), rows);
    PermutedMembers(e.namedKeys(rows), rows);
    RisingRestores(e.namedKeys(rows), rows);
  }

  // ---------- index columns ----------

  function KeyRowNum(r: KeyRow): nat { r.n }

  lemma KeyRowsAreSlots(cat: Catalog, ix: PgIndex)
    requires Unique(cat.attributes, AttributeKey)
    ensures
      var rows := KeyRowsOf(cat, ix);
      && Project(rows, KeyRowName) == NamedColumns(cat, ix.indrelid, ix.indkey)
      && RisingBy(rows, KeyRowNum)
  {
    UnnestRises(ix.indkey);
    SlotsJoinRises(cat, ix.indrelid, Unnest(ix.indkey), ToKeyRow(ix), KeyRowNum, KeyRowName);
    SlotsJoinNames(cat, ix.indrelid, Unnest(ix.indkey), ToKeyRow(ix), KeyRowNum, KeyRowName);
  }

  lemma {:induction false} JoinedKeyRow(cat: Catalog, ix: PgIndex, slots: seq<Slot>)
    ensures forall r | r in Join(slots, cat.attributes, SlotOf(ix.indrelid), ToKeyRow(ix)) ::
      r.indexrelid == ix.indexrelid && r.indrelid == ix.indrelid
  {
    if slots != [] {
      JoinedKeyRow(cat, ix, slots[1..]);
    }
  }

  lemma {:induction false} KeyRowsComeFromIndexes(cat: Catalog, ixs: seq<PgIndex>)
    ensures forall r | r in KeyRows(cat, ixs) :: exists ix ::
        ix in ixs && KeyRowGroup(r) == (ix.indexrelid, ix.indrelid)
  {
    if ixs != [] {
      JoinedKeyRow(cat, ixs[0], Unnest(ixs[0].indkey));
      KeyRowsComeFromIndexes(cat, ixs[1..]);
      forall r | r in KeyRows(cat, ixs)
        ensures exists ix :: ix in ixs && KeyRowGroup(r) == (ix.indexrelid, ix.indrelid)
      {
        if r in KeyRowsOf(cat, ixs[0]) {
          assert ixs[0] in ixs;
        } else {
          var ix :| ix in ixs[1..] && KeyRowGroup(r) == (ix.indexrelid, ix.indrelid);
          assert ix in ixs;
        }
      }
    }
  }

  /** The key rows of an index's group are the key rows of that index, and of no other. */
  lemma {:induction false} GroupOfIndex(cat: Catalog, ixs: seq<PgIndex>, ix: PgIndex)
    requires Unique(ixs, IndexOid) && ix in ixs
    ensures Where(KeyRows(cat, ixs), HasKey(KeyRowGroup, (ix.indexrelid, ix.indrelid))) == KeyRowsOf(cat, ix)
  {
    var mine := HasKey(KeyRowGroup, (ix.indexrelid, ix.indrelid));
    var head, tail := KeyRowsOf(cat, ixs[0]), KeyRows(cat, ixs[1..]);
    WhereAppend(head, tail, mine);
    JoinedKeyRow(cat, ixs[0], Unnest(ixs[0].indkey));
    KeyRowsComeFromIndexes(cat, ixs[1..]);
    if ix == ixs[0] {
      assert forall r | r in head :: KeyRowGroup(r) == (ix.indexrelid, ix.indrelid);
      WhereAll(head, mine);
      forall r | r in tail ensures !mine(r) {
        var other :| other in ixs[1..] && KeyRowGroup(r) == (other.indexrelid, other.indrelid);
        assert IndexOid(other) != IndexOid(ix);
      }
      WhereNone(tail, mine);
    } else {
      forall r | r in head ensures !mine(r) {
        assert KeyRowGroup(r).0 == IndexOid(ixs[0]) != IndexOid(ix);
      }
      WhereNone(head, mine);
      assert Unique(ixs[1..], IndexOid);
      GroupOfIndex(cat, ixs[1..], ix);
    }
  }

  /** What the outer join on `index_column_names` finds for an index. */
  function NamesFor(cat: Catalog, ix: PgIndex): Option<IndexColumns> {
    var names := NamedColumns(cat, ix.indrelid, ix.indkey);
    if names == [] then None else Some(IndexColumns(ix.indexrelid, ix.indrelid, names))
  }

  lemma GroupedNamesOf(cat: Catalog, e: Executor, ix: PgIndex)
    requires WellFormed(cat) && OnlyReorders(e) && ix in cat.indexes
    ensures
      var rows := e.keyRows(KeyRows(cat, cat.indexes));
      var key := (ix.indexrelid, ix.indrelid);
      AggregateColumns(key, Where(rows, HasKey(KeyRowGroup, key)))
      == IndexColumns(ix.indexrelid, ix.indrelid, NamedColumns(cat, ix.indrelid, ix.indkey))
  {
    var all := KeyRows(cat, cat.indexes);
    var rows := e.keyRows(all);
    var mine := HasKey(KeyRowGroup, (ix.indexrelid, ix.indrelid));
    GroupOfIndex(cat, cat.indexes, ix);
    KeyRowsAreSlots(cat, ix);
    assert Permuted(rows, all);
    WherePermuted(rows, all, mine);
    var own := KeyRowsOf(cat, ix);
    assert Sorted(own, KeyRowLe) by {
      forall i, j | 0 <= i < j < |own| ensures KeyRowLe(own[i], own[j]) {
        assert KeyRowNum(own[i]) < KeyRowNum(own[j]);
      }
    }
    OrderByRestores(Where(rows, mine), own, KeyRowLe);
  }

  /** A group keyed by this index's oid is keyed by this index's table too: the oid is a key of `pg_index`. */
  lemma GroupsOfOneIndex(cat: Catalog, e: Executor, ix: PgIndex, i: nat)
    requires WellFormed(cat) && OnlyReorders(e) && ix in cat.indexes
    requires i < |IndexColumnNames(cat, e)| && IndexColumnNames(cat, e)[i].indexrelid == ix.indexrelid
    ensures
      var rows := e.keyRows(KeyRows(cat, cat.indexes));
      && |KeysOf(rows, KeyRowGroup)| == |IndexColumnNames(cat, e)|
      && KeysOf(rows, KeyRowGroup)[i] == (ix.indexrelid, ix.indrelid)
      && exists r :: r in rows && KeyRowGroup(r) == (ix.indexrelid, ix.indrelid)
  {
    var all := KeyRows(cat, cat.indexes);
    var rows := e.keyRows(all);
    var r := GroupMembers(rows, KeyRowGroup, AggregateColumns, i);
    assert Permuted(rows, all);
    PermutedMembers(rows, all);
    KeyRowsComeFromIndexes(cat, cat.indexes);
    var other :| other in cat.indexes && KeyRowGroup(r) == (other.indexrelid, other.indrelid);
    UniqueElement(cat.indexes, IndexOid, other, ix);
  }

  lemma IndexHasRows(cat: Catalog, e: Executor, ix: PgIndex)
    requires WellFormed(cat) && OnlyReorders(e) && ix in cat.indexes
    ensures
      (exists r :: r in e.keyRows(KeyRows(cat, cat.indexes)) && KeyRowGroup(r) == (ix.indexrelid, ix.indrelid))
      <==> NamedColumns(cat, ix.indrelid, ix.indkey) != []
  {
    var all := KeyRows(cat, cat.indexes);
    var rows := e.keyRows(all);
    var mine := HasKey(KeyRowGroup, (ix.indexrelid, ix.indrelid));
    assert Permuted(rows, all);
    PermutedMembers(rows, all);
    GroupOfIndex(cat, cat.indexes, ix);
    KeyRowsAreSlots(cat, ix);
    forall r ensures r in KeyRowsOf(cat, ix) <==> r in rows && KeyRowGroup(r) == (ix.indexrelid, ix.indrelid) {
      WhereMembers(all, mine, r);
    }
    if NamedColumns(cat, ix.indrelid, ix.indkey) != [] {
      assert KeyRowsOf(cat, ix)[0] in KeyRowsOf(cat, ix);
    }
  }

  /** The outer join on `index_column_names` gives each index one row, with its own columns or with none. */
  lemma NamesJoin(cat: Catalog, e: Executor, row: IndexAndAm)
    requires WellFormed(cat) && OnlyReorders(e) && row.ix in cat.indexes
    ensures LeftJoin([row], IndexColumnNames(cat, e), OnIndexNames, ToIndexAndNames)
        == [ToIndexAndNames(row, NamesFor(cat, row.ix))]
  {
    var ix := row.ix;
    var names := IndexColumnNames(cat, e);
    var rows := e.keyRows(KeyRows(cat, cat.indexes));
    IndexHasRows(cat, e, ix);
    if NamedColumns(cat, ix.indrelid, ix.indkey) != [] {
      var r :| r in rows && KeyRowGroup(r) == (ix.indexrelid, ix.indrelid);
      var j := GroupFound(rows, KeyRowGroup, AggregateColumns, r);
      GroupedNamesOf(cat, e, ix);
      forall i | 0 <= i < |names| && i != j ensures !OnIndexNames(row, names[i]) {
        if names[i].indexrelid == ix.indexrelid {
          GroupsOfOneIndex(cat, e, ix, i);
        }
      }
      LeftJoinOne(row, names, OnIndexNames, ToIndexAndNames, j);
    } else {
      forall ic | ic in names ensures !OnIndexNames(row, ic) {
        var i :| 0 <= i < |names| && names[i] == ic;
        if ic.indexrelid == ix.indexrelid {
          GroupsOfOneIndex(cat, e, ix, i);
        }
      }
      LeftJoinNone(row, names, OnIndexNames, ToIndexAndNames);
    }
  }

  // ---------- what the columns are ----------

  function IsColumnSlot(k: int): bool { k != 0 }

  function ColumnName(cat: Catalog, relid: nat): int -> string {
    (k: int) => var a := FindAttribute(cat, relid, k); if a.Some? then a.value.attname else ""
  }

  /** With every slot resolving, one more slot in front adds its name, or nothing if it is an expression. */
  lemma NamedColumnsStep(cat: Catalog, relid: nat, keys: seq<int>)
    requires keys != [] && KeyColumnsResolve(cat, relid, keys)
    ensures KeyColumnsResolve(cat, relid, keys[1..])
    ensures
      NamedColumns(cat, relid, keys) ==
      (if keys[0] == 0 then [] else [ColumnName(cat, relid)(keys[0])]) + NamedColumns(cat, relid, keys[1..])
  {
    if keys[0] == 0 {
      assert FindAttribute(cat, relid, 0).None?;
    } else {
      assert keys[0] in keys;
    }
  }

  /**
    When every slot resolves, the column list is the key vector with the
    expression slots (number 0) filtered out, in key order.
   */
  lemma {:induction false} NamedColumnsFilterExpressions(cat: Catalog, relid: nat, keys: seq<int>)
    requires KeyColumnsResolve(cat, relid, keys)
    ensures NamedColumns(cat, relid, keys) == Project(Where(keys, IsColumnSlot), ColumnName(cat, relid))
  {
    if keys != [] {
      var f := ColumnName(cat, relid);
      var head := if keys[0] == 0 then [] else [keys[0]];
      NamedColumnsStep(cat, relid, keys);
      NamedColumnsFilterExpressions(cat, relid, keys[1..]);
      ProjectAppend(head, Where(keys[1..], IsColumnSlot), f);
      assert Project(head, f) == if keys[0] == 0 then [] else [f(keys[0])];
    }
  }

  /** So it is NULL exactly when no slot names a column. */
  lemma NullExactlyWithoutColumns(cat: Catalog, relid: nat, keys: seq<int>)
    requires KeyColumnsResolve(cat, relid, keys)
    ensures NullIfEmpty(NamedColumns(cat, relid, keys)).None? <==> forall k | k in keys :: k == 0
  {
    NamedColumnsFilterExpressions(cat, relid, keys);
    var slots := Where(keys, IsColumnSlot);
    if k :| k in keys && k != 0 {
      WhereMembers(keys, IsColumnSlot, k);
    } else {
      WhereNone(keys, IsColumnSlot);
    }
  }
}
