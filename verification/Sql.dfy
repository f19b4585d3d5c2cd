/**
  The relational operators the table query is made of, on sequences of rows,
  and what each of them does to a reordered or a keyed input.
 */
module Sql {
  import opened Wrappers

  function Where<A>(xs: seq<A>, p: A -> bool): seq<A> {
    if xs == [] then [] else (if p(xs[0]) then [xs[0]] else []) + Where(xs[1..], p)
  }

  function Project<A, B>(xs: seq<A>, f: A -> B): (ys: seq<B>)
    ensures |ys| == |xs|
    ensures forall i | 0 <= i < |xs| :: ys[i] == f(xs[i])
  {
    seq(|xs|, i requires 0 <= i < |xs| => f(xs[i]))
  }

  /** The rows of `ys` that join with `x`. */
  function Matching<A, B>(x: A, ys: seq<B>, on: (A, B) -> bool): seq<B> {
    if ys == [] then [] else (if on(x, ys[0]) then [ys[0]] else []) + Matching(x, ys[1..], on)
  }

  function Pair<A, B, C>(x: A, ys: seq<B>, mk: (A, B) -> C): seq<C> {
    seq(|ys|, i requires 0 <= i < |ys| => mk(x, ys[i]))
  }

  function Join<A, B, C>(xs: seq<A>, ys: seq<B>, on: (A, B) -> bool, mk: (A, B) -> C): seq<C> {
    if xs == [] then [] else Pair(xs[0], Matching(xs[0], ys, on), mk) + Join(xs[1..], ys, on, mk)
  }

  function PairOuter<A, B, C>(x: A, ys: seq<B>, mk: (A, Option<B>) -> C): seq<C> {
    if ys == [] then [mk(x, None)] else seq(|ys|, i requires 0 <= i < |ys| => mk(x, Some(ys[i])))
  }

  function LeftJoin<A, B, C>(xs: seq<A>, ys: seq<B>, on: (A, B) -> bool, mk: (A, Option<B>) -> C): seq<C> {
    if xs == [] then [] else PairOuter(xs[0], Matching(xs[0], ys, on), mk) + LeftJoin(xs[1..], ys, on, mk)
  }

  /** The distinct keys of `xs`, in order of first occurrence. */
  function KeysOf<A, K(==)>(xs: seq<A>, key: A -> K): seq<K> {
    if xs == [] then []
    else
      var before := KeysOf(xs[..|xs| - 1], key);
      var k := key(xs[|xs| - 1]);
      if k in before then before else before + [k]
  }

  function HasKey<A, K(==)>(key: A -> K, k: K): A -> bool {
    x => key(x) == k
  }

  lemma HasKeyMeans<A, K>(key: A -> K, k: K, x: A)
    ensures HasKey(key, k)(x) <==> key(x) == k
  {
  }

  /** GROUP BY: one row per distinct key, aggregated from the rows that have it. */
  function GroupBy<A, K(==), G>(xs: seq<A>, key: A -> K, agg: (K, seq<A>) -> G): seq<G> {
    var keys := KeysOf(xs, key);
    seq(|keys|, i requires 0 <= i < |keys| => agg(keys[i], Where(xs, HasKey(key, keys[i]))))
  }

  function InsertBy<A>(x: A, xs: seq<A>, le: (A, A) -> bool): seq<A> {
    if xs == [] then [x]
    else if le(x, xs[0]) then [x] + xs
    else [xs[0]] + InsertBy(x, xs[1..], le)
  }

  function OrderBy<A>(xs: seq<A>, le: (A, A) -> bool): seq<A> {
    if xs == [] then [] else InsertBy(xs[0], OrderBy(xs[1..], le), le)
  }

  // ---------- reordered inputs ----------

  ghost predicate Permuted<A>(xs: seq<A>, ys: seq<A>) {
    multiset(xs) == multiset(ys)
  }

  lemma PermutedMembers<A>(xs: seq<A>, ys: seq<A>)
    requires Permuted(xs, ys)
    ensures |xs| == |ys|
    ensures forall x :: x in xs <==> x in ys
  {
    assert |multiset(xs)| == |multiset(ys)|;
    assert forall x :: x in xs <==> x in multiset(xs);
    assert forall x :: x in ys <==> x in multiset(ys);
  }

  /** Taking the same row out of two reordered copies leaves two reordered copies. */
  lemma PermutedRest<A>(xs: seq<A>, ys: seq<A>, p: nat)
    requires Permuted(xs, ys) && xs != [] && p < |ys| && ys[p] == xs[0]
    ensures ys == ys[..p] + [xs[0]] + ys[p + 1..]
    ensures Permuted(xs[1..], ys[..p] + ys[p + 1..])
  {
    assert xs == [xs[0]] + xs[1..];
    assert ys == ys[..p] + [xs[0]] + ys[p + 1..];
    assert multiset(xs[1..]) == multiset(xs) - multiset{xs[0]};
    assert multiset(ys[..p] + ys[p + 1..]) == multiset(ys) - multiset{xs[0]};
  }

  lemma {:induction false} WhereAppend<A>(xs: seq<A>, ys: seq<A>, p: A -> bool)
    ensures Where(xs + ys, p) == Where(xs, p) + Where(ys, p)
  {
    if xs == [] {
      assert xs + ys == ys;
    } else {
      var head := if p(xs[0]) then [xs[0]] else [];
      assert (xs + ys)[0] == xs[0] && (xs + ys)[1..] == xs[1..] + ys;
      WhereAppend(xs[1..], ys, p);
      assert head + (Where(xs[1..], p) + Where(ys, p)) == (head + Where(xs[1..], p)) + Where(ys, p);
    }
  }

  lemma WhereOne<A>(x: A, p: A -> bool)
    ensures Where([x], p) == if p(x) then [x] else []
  {
    assert [x][1..] == [];
  }

  lemma {:induction false} WhereCounts<A>(xs: seq<A>, p: A -> bool, x: A)
    ensures multiset(Where(xs, p))[x] == if p(x) then multiset(xs)[x] else 0
  {
    if xs != [] {
      WhereCounts(xs[1..], p, x);
      assert xs == [xs[0]] + xs[1..];
    }
  }

  lemma {:induction false} WherePermuted<A>(xs: seq<A>, ys: seq<A>, p: A -> bool)
    requires Permuted(xs, ys)
    ensures Permuted(Where(xs, p), Where(ys, p))
    decreases |xs|
  {
    PermutedMembers(xs, ys);
    if xs != [] {
      assert xs[0] in ys;
      var i :| 0 <= i < |ys| && ys[i] == xs[0];
      var before, after := ys[..i], ys[i + 1..];
      PermutedRest(xs, ys, i);
      WherePermuted(xs[1..], before + after, p);
      WhereAppend(before, after, p);
      WhereAppend(before + [xs[0]], after, p);
      WhereAppend(before, [xs[0]], p);
    }
  }

  lemma WhereMembers<A>(xs: seq<A>, p: A -> bool, x: A)
    ensures x in Where(xs, p) <==> x in xs && p(x)
  {
    WhereCounts(xs, p, x);
    assert x in Where(xs, p) <==> x in multiset(Where(xs, p));
    assert x in xs <==> x in multiset(xs);
  }

  lemma {:induction false} WhereSame<A>(xs: seq<A>, p: A -> bool, q: A -> bool)
    requires forall x | x in xs :: p(x) == q(x)
    ensures Where(xs, p) == Where(xs, q)
  {
    if xs != [] {
      WhereSame(xs[1..], p, q);
    }
  }

  lemma {:induction false} WhereAll<A>(xs: seq<A>, p: A -> bool)
    requires forall x | x in xs :: p(x)
    ensures Where(xs, p) == xs
  {
    if xs != [] {
      WhereAll(xs[1..], p);
    }
  }

  lemma {:induction false} WhereNone<A>(xs: seq<A>, p: A -> bool)
    requires forall x | x in xs :: !p(x)
    ensures Where(xs, p) == []
  {
    if xs != [] {
      WhereNone(xs[1..], p);
    }
  }

  lemma {:induction false} ProjectPermuted<A, B>(xs: seq<A>, ys: seq<A>, f: A -> B)
    requires Permuted(xs, ys)
    ensures Permuted(Project(xs, f), Project(ys, f))
    decreases |xs|
  {
    PermutedMembers(xs, ys);
    if xs != [] {
      assert xs[0] in ys;
      var p :| 0 <= p < |ys| && ys[p] == xs[0];
      PermutedRest(xs, ys, p);
      ProjectPermuted(xs[1..], ys[..p] + ys[p + 1..], f);
      ProjectSplits(xs, 0, f);
      ProjectSplits(ys, p, f);
      assert Project(xs[..0], f) == [];
      assert Permuted(Project(xs, f), Project(ys, f));
    }
  }

  lemma ProjectSplits<A, B>(xs: seq<A>, p: nat, f: A -> B)
    requires p < |xs|
    ensures Project(xs, f) == Project(xs[..p], f) + [f(xs[p])] + Project(xs[p + 1..], f)
    ensures Project(xs[..p] + xs[p + 1..], f) == Project(xs[..p], f) + Project(xs[p + 1..], f)
  {
  }

  lemma ProjectAppend<A, B>(xs: seq<A>, ys: seq<A>, f: A -> B)
    ensures Project(xs + ys, f) == Project(xs, f) + Project(ys, f)
  {
  }

  // ---------- joins ----------

  lemma {:induction false} JoinAppend<A, B, C>(xs: seq<A>, zs: seq<A>, ys: seq<B>, on: (A, B) -> bool, mk: (A, B) -> C)
    ensures Join(xs + zs, ys, on, mk) == Join(xs, ys, on, mk) + Join(zs, ys, on, mk)
  {
    if xs == [] {
      assert xs + zs == zs;
    } else {
      var head := Pair(xs[0], Matching(xs[0], ys, on), mk);
      assert (xs + zs)[0] == xs[0] && (xs + zs)[1..] == xs[1..] + zs;
      JoinAppend(xs[1..], zs, ys, on, mk);
      assert head + (Join(xs[1..], ys, on, mk) + Join(zs, ys, on, mk))
          == (head + Join(xs[1..], ys, on, mk)) + Join(zs, ys, on, mk);
    }
  }

  lemma {:induction false} LeftJoinAppend<A, B, C>(
    xs: seq<A>, zs: seq<A>, ys: seq<B>, on: (A, B) -> bool, mk: (A, Option<B>) -> C)
    ensures LeftJoin(xs + zs, ys, on, mk) == LeftJoin(xs, ys, on, mk) + LeftJoin(zs, ys, on, mk)
  {
    if xs == [] {
      assert xs + zs == zs;
    } else {
      var head := PairOuter(xs[0], Matching(xs[0], ys, on), mk);
      assert (xs + zs)[0] == xs[0] && (xs + zs)[1..] == xs[1..] + zs;
      LeftJoinAppend(xs[1..], zs, ys, on, mk);
      assert head + (LeftJoin(xs[1..], ys, on, mk) + LeftJoin(zs, ys, on, mk))
          == (head + LeftJoin(xs[1..], ys, on, mk)) + LeftJoin(zs, ys, on, mk);
    }
  }

  lemma {:induction false} MatchingNone<A, B>(x: A, ys: seq<B>, on: (A, B) -> bool)
    requires forall y | y in ys :: !on(x, y)
    ensures Matching(x, ys, on) == []
  {
    if ys != [] {
      MatchingNone(x, ys[1..], on);
    }
  }

  /** A row that joins with position `j` and no other position has one match. */
  lemma {:induction false} MatchingOne<A, B>(x: A, ys: seq<B>, on: (A, B) -> bool, j: nat)
    requires j < |ys| && on(x, ys[j])
    requires forall i | 0 <= i < |ys| && i != j :: !on(x, ys[i])
    ensures Matching(x, ys, on) == [ys[j]]
  {
    if j == 0 {
      MatchingNone(x, ys[1..], on);
    } else {
      MatchingOne(x, ys[1..], on, j - 1);
    }
  }

  lemma JoinOne<A, B, C>(x: A, ys: seq<B>, on: (A, B) -> bool, mk: (A, B) -> C, j: nat)
    requires j < |ys| && on(x, ys[j])
    requires forall i | 0 <= i < |ys| && i != j :: !on(x, ys[i])
    ensures Join([x], ys, on, mk) == [mk(x, ys[j])]
  {
    MatchingOne(x, ys, on, j);
    assert [x][1..] == [];
  }

  lemma JoinNone<A, B, C>(x: A, ys: seq<B>, on: (A, B) -> bool, mk: (A, B) -> C)
    requires forall y | y in ys :: !on(x, y)
    ensures Join([x], ys, on, mk) == []
  {
    MatchingNone(x, ys, on);
    assert [x][1..] == [];
  }

  lemma LeftJoinOne<A, B, C>(x: A, ys: seq<B>, on: (A, B) -> bool, mk: (A, Option<B>) -> C, j: nat)
    requires j < |ys| && on(x, ys[j])
    requires forall i | 0 <= i < |ys| && i != j :: !on(x, ys[i])
    ensures LeftJoin([x], ys, on, mk) == [mk(x, Some(ys[j]))]
  {
    MatchingOne(x, ys, on, j);
    assert [x][1..] == [];
  }

  lemma LeftJoinNone<A, B, C>(x: A, ys: seq<B>, on: (A, B) -> bool, mk: (A, Option<B>) -> C)
    requires forall y | y in ys :: !on(x, y)
    ensures LeftJoin([x], ys, on, mk) == [mk(x, None)]
  {
    MatchingNone(x, ys, on);
    assert [x][1..] == [];
  }

  // ---------- grouping ----------

  lemma {:induction false} KeysAreDistinctKeys<A, K>(xs: seq<A>, key: A -> K)
    ensures forall i, j | 0 <= i < j < |KeysOf(xs, key)| :: KeysOf(xs, key)[i] != KeysOf(xs, key)[j]
    ensures forall x | x in xs :: key(x) in KeysOf(xs, key)
    ensures forall k | k in KeysOf(xs, key) :: exists x :: x in xs && key(x) == k
  {
    if xs != [] {
      var init, last := xs[..|xs| - 1], xs[|xs| - 1];
      KeysAreDistinctKeys(init, key);
      assert xs == init + [last];
      forall k | k in KeysOf(xs, key) ensures exists x :: x in xs && key(x) == k {
        if k in KeysOf(init, key) {
          var x :| x in init && key(x) == k;
          assert x in xs;
        } else {
          assert last in xs && key(last) == k;
        }
      }
    }
  }

  /** A key some row has is the key of exactly one group, aggregated from exactly those rows. */
  lemma GroupFound<A, K, G>(xs: seq<A>, key: A -> K, agg: (K, seq<A>) -> G, x: A) returns (j: nat)
    requires x in xs
    ensures |KeysOf(xs, key)| == |GroupBy(xs, key, agg)|
    ensures j < |GroupBy(xs, key, agg)| && KeysOf(xs, key)[j] == key(x)
    ensures GroupBy(xs, key, agg)[j] == agg(key(x), Where(xs, HasKey(key, key(x))))
    ensures forall i | 0 <= i < |KeysOf(xs, key)| && i != j :: KeysOf(xs, key)[i] != key(x)
  {
    KeysAreDistinctKeys(xs, key);
    j :| 0 <= j < |KeysOf(xs, key)| && KeysOf(xs, key)[j] == key(x);
  }

  lemma GroupMembers<A, K, G>(xs: seq<A>, key: A -> K, agg: (K, seq<A>) -> G, i: nat) returns (x: A)
    requires i < |GroupBy(xs, key, agg)|
    ensures |KeysOf(xs, key)| == |GroupBy(xs, key, agg)|
    ensures x in xs && key(x) == KeysOf(xs, key)[i]
    ensures GroupBy(xs, key, agg)[i] == agg(key(x), Where(xs, HasKey(key, key(x))))
  {
    KeysAreDistinctKeys(xs, key);
    assert KeysOf(xs, key)[i] in KeysOf(xs, key);
    x :| x in xs && key(x) == KeysOf(xs, key)[i];
  }

  /**
    An outer join with a grouped relation on the group key: one row, showing
    the group aggregated from the rows with that key, or NULL if there are none.
   */
  lemma LeftJoinGroups<L, A(!new), K(!new), G, C>(
    row: L, k: K, rows: seq<A>, key: A -> K, agg: (K, seq<A>) -> G, on: (L, G) -> bool, mk: (L, Option<G>) -> C)
    requires forall k', xs :: on(row, agg(k', xs)) <==> k' == k
    ensures
      var own := Where(rows, HasKey(key, k));
      LeftJoin([row], GroupBy(rows, key, agg), on, mk)
      == [mk(row, if own == [] then None else Some(agg(k, own)))]
  {
    var groups := GroupBy(rows, key, agg);
    var own := Where(rows, HasKey(key, k));
    if x :| x in rows && key(x) == k {
      WhereMembers(rows, HasKey(key, k), x);
      var j := GroupFound(rows, key, agg, x);
      forall i | 0 <= i < |groups| && i != j ensures !on(row, groups[i]) {
        var y := GroupMembers(rows, key, agg, i);
      }
      LeftJoinOne(row, groups, on, mk, j);
    } else {
      WhereNone(rows, HasKey(key, k));
      forall g | g in groups ensures !on(row, g) {
        var i :| 0 <= i < |groups| && groups[i] == g;
        var y := GroupMembers(rows, key, agg, i);
      }
      LeftJoinNone(row, groups, on, mk);
    }
  }

  // ---------- ordering ----------

  ghost predicate Sorted<A>(xs: seq<A>, le: (A, A) -> bool) {
    forall i, j | 0 <= i < j < |xs| :: le(xs[i], xs[j])
  }

  ghost predicate Linear<A(!new)>(le: (A, A) -> bool) {
    && (forall a, b :: le(a, b) || le(b, a))
    && (forall a, b, c :: le(a, b) && le(b, c) ==> le(a, c))
  }

  /** The order tells any two different rows of `xs` apart. */
  ghost predicate Separates<A>(xs: seq<A>, le: (A, A) -> bool) {
    forall a, b | a in xs && b in xs && le(a, b) && le(b, a) :: a == b
  }

  lemma {:induction false} InsertPermutes<A>(x: A, xs: seq<A>, le: (A, A) -> bool)
    ensures Permuted(InsertBy(x, xs, le), [x] + xs)
  {
    if xs != [] && !le(x, xs[0]) {
      InsertPermutes(x, xs[1..], le);
      assert xs == [xs[0]] + xs[1..];
    }
  }

  lemma {:induction false} InsertSorts<A(!new)>(x: A, xs: seq<A>, le: (A, A) -> bool)
    requires Linear(le) && Sorted(xs, le)
    ensures Sorted(InsertBy(x, xs, le), le)
  {
    if xs == [] {
    } else if le(x, xs[0]) {
      forall i | 0 <= i < |xs| ensures le(x, xs[i]) {
        assert i == 0 || le(xs[0], xs[i]);
      }
    } else {
      var rest := InsertBy(x, xs[1..], le);
      InsertSorts(x, xs[1..], le);
      InsertPermutes(x, xs[1..], le);
      PermutedMembers(rest, [x] + xs[1..]);
      forall i | 0 <= i < |rest| ensures le(xs[0], rest[i]) {
        assert rest[i] in [x] + xs[1..];
      }
    }
  }

  lemma {:induction false} OrderByPermutes<A>(xs: seq<A>, le: (A, A) -> bool)
    ensures Permuted(OrderBy(xs, le), xs)
  {
    if xs != [] {
      OrderByPermutes(xs[1..], le);
      InsertPermutes(xs[0], OrderBy(xs[1..], le), le);
      assert xs == [xs[0]] + xs[1..];
    }
  }

  lemma {:induction false} OrderBySorts<A(!new)>(xs: seq<A>, le: (A, A) -> bool)
    requires Linear(le)
    ensures Sorted(OrderBy(xs, le), le)
  {
    if xs != [] {
      OrderBySorts(xs[1..], le);
      InsertSorts(xs[0], OrderBy(xs[1..], le), le);
    }
  }

  lemma SortedHeadsAgree<A>(xs: seq<A>, ys: seq<A>, le: (A, A) -> bool)
    requires Permuted(xs, ys) && xs != [] && ys != []
    requires Sorted(xs, le) && Sorted(ys, le) && Separates(xs, le)
    ensures xs[0] == ys[0]
  {
    PermutedMembers(xs, ys);
    assert xs[0] in ys && ys[0] in xs;
    var i :| 0 <= i < |ys| && ys[i] == xs[0];
    var j :| 0 <= j < |xs| && xs[j] == ys[0];
    if i > 0 && j > 0 {
      assert le(ys[0], ys[i]) && le(xs[0], xs[j]);
    }
  }

  /** Under an order that tells its rows apart, a bag of rows has only one sorted arrangement. */
  lemma {:induction false} SortedIsUnique<A>(xs: seq<A>, ys: seq<A>, le: (A, A) -> bool)
    requires Permuted(xs, ys) && Sorted(xs, le) && Sorted(ys, le) && Separates(xs, le)
    ensures xs == ys
    decreases |xs|
  {
    PermutedMembers(xs, ys);
    if xs != [] {
      SortedHeadsAgree(xs, ys, le);
      PermutedRest(xs, ys, 0);
      assert ys[..0] + ys[0 + 1..] == ys[1..];
      SortedIsUnique(xs[1..], ys[1..], le);
    }
  }

  /** Sorting a reordered copy of rows that are already in order gives those rows. */
  lemma OrderByRestores<A(!new)>(shuffled: seq<A>, rows: seq<A>, le: (A, A) -> bool)
    requires Linear(le) && Permuted(shuffled, rows) && Sorted(rows, le) && Separates(rows, le)
    ensures OrderBy(shuffled, le) == rows
  {
    OrderByPermutes(shuffled, le);
    OrderBySorts(shuffled, le);
    SortedIsUnique(rows, OrderBy(shuffled, le), le);
  }

  // ---------- unique keys ----------

  ghost predicate Unique<A, K>(xs: seq<A>, key: A -> K) {
    forall i, j | 0 <= i < j < |xs| :: key(xs[i]) != key(xs[j])
  }

  lemma UniqueElement<A, K>(xs: seq<A>, key: A -> K, a: A, b: A)
    requires Unique(xs, key) && a in xs && b in xs && key(a) == key(b)
    ensures a == b
  {
  }

  /** Looking a row up by a predicate; the first one found. */
  function Find<A>(xs: seq<A>, p: A -> bool): (r: Option<A>)
    ensures r.Some? ==> r.value in xs && p(r.value)
    ensures r.None? ==> forall x | x in xs :: !p(x)
  {
    if xs == [] then None else if p(xs[0]) then Some(xs[0]) else Find(xs[1..], p)
  }
}
