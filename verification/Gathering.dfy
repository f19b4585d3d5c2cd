/** Concatenation over a sequence, and what reordering the sequence does to it. */
module Gathering {

  /** What an append loop over `xs` accumulates when each element contributes `f(x)`. */
  function Gather<A, B>(xs: seq<A>, f: A -> seq<B>): seq<B> {
    if xs == [] then [] else Gather(xs[..|xs| - 1], f) + f(xs[|xs| - 1])
  }

  lemma {:induction false} GatherAppend<A, B>(xs: seq<A>, ys: seq<A>, f: A -> seq<B>)
    ensures Gather(xs + ys, f) == Gather(xs, f) + Gather(ys, f)
    decreases |ys|
  {
    if ys == [] {
      assert xs + ys == xs;
    } else {
      var init := ys[..|ys| - 1];
      assert (xs + ys)[..|xs + ys| - 1] == xs + init;
      GatherAppend(xs, init, f);
    }
  }

  lemma GatherOne<A, B>(x: A, f: A -> seq<B>)
    ensures Gather([x], f) == f(x)
  {
    assert [x][..0] == [];
  }

  /** Each element's contribution is one contiguous block, placed after the contributions before it. */
  lemma {:induction false} GatherBlock<A, B>(xs: seq<A>, f: A -> seq<B>, k: nat)
    requires k < |xs|
    ensures
      var from, to := |Gather(xs[..k], f)|, |Gather(xs[..k + 1], f)|;
      && from <= to <= |Gather(xs, f)|
      && Gather(xs, f)[from..to] == f(xs[k])
  {
    var front := xs[..k + 1];
    assert xs == front + xs[k + 1..];
    GatherAppend(front, xs[k + 1..], f);
    assert front[..k] == xs[..k] && front[k] == xs[k];
    assert Gather(front, f) == Gather(xs[..k], f) + f(xs[k]);
  }

  /** Reordering the contributors reorders what they contribute and nothing else. */
  lemma {:induction false} GatherPermuted<A, B>(xs: seq<A>, ys: seq<A>, f: A -> seq<B>)
    requires multiset(xs) == multiset(ys)
    ensures multiset(Gather(xs, f)) == multiset(Gather(ys, f))
    decreases |xs|
  {
    if xs == [] {
      assert |multiset(ys)| == 0;
      assert ys == [];
    } else {
      var init, last := xs[..|xs| - 1], xs[|xs| - 1];
      assert xs == init + [last];
      assert last in multiset(ys);
      var p :| 0 <= p < |ys| && ys[p] == last;
      var before, after := ys[..p], ys[p + 1..];
      assert ys == before + [last] + after;
      assert multiset(xs) == multiset(init) + multiset{last};
      assert multiset(ys) == multiset(before + after) + multiset{last};
      assert multiset(init) == multiset(xs) - multiset{last};
      assert multiset(before + after) == multiset(ys) - multiset{last};
      GatherPermuted(init, before + after, f);
      GatherAppend(before + [last], after, f);
      GatherAppend(before, [last], f);
      GatherAppend(before, after, f);
      GatherOne(last, f);
    }
  }

  /** The numbers below `n`. */
  function Below(n: nat): (s: set<nat>)
    ensures |s| == n
    ensures forall k: nat :: k in s <==> k < n
  {
    if n == 0 then {} else Below(n - 1) + {n - 1}
  }

  function Elements(jobs: seq<nat>): (s: set<nat>)
    ensures forall j: nat :: j in s <==> j in jobs
  {
    set j | j in jobs
  }

  /** `n` distinct numbers below `n` are all the numbers below `n`. */
  lemma Pigeonhole(jobs: seq<nat>, n: nat)
    requires forall i | 0 <= i < |jobs| :: jobs[i] < n
    requires forall i, j | 0 <= i < j < |jobs| :: jobs[i] != jobs[j]
    ensures |jobs| <= n
    ensures |jobs| == n ==> forall k: nat | k < n :: k in jobs
  {
    var seen := Elements(jobs);
    DistinctSize(jobs);
    assert seen <= Below(n);
    SubsetSize(seen, Below(n));
    if |jobs| == n {
      forall k: nat | k < n ensures k in jobs {
        assert k in Below(n);
        assert k in seen;
      }
    }
  }

  lemma {:induction false} DistinctSize(jobs: seq<nat>)
    requires forall i, j | 0 <= i < j < |jobs| :: jobs[i] != jobs[j]
    ensures |Elements(jobs)| == |jobs|
  {
    if jobs != [] {
      var init, last := jobs[..|jobs| - 1], jobs[|jobs| - 1];
      DistinctSize(init);
      assert jobs == init + [last];
      assert Elements(jobs) == Elements(init) + {last};
      assert last !in init;
    }
  }

  lemma SubsetSize<A>(a: set<A>, b: set<A>)
    requires a <= b
    ensures |a| <= |b|
    ensures |a| == |b| ==> a == b
  {
    assert b == a + (b - a);
  }
}
