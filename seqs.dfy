/** Order-keeping selections from a sequence, stated once for any element type. */
module Seqs {
  import opened Wrappers

  /** Whether `xs` is `ys` with some elements left out, order kept. */
  predicate Subsequence<T(==)>(xs: seq<T>, ys: seq<T>)
    decreases |ys|
  {
    if xs == [] then true
    else if ys == [] then false
    else if xs[|xs| - 1] == ys[|ys| - 1] then Subsequence(xs[..|xs| - 1], ys[..|ys| - 1])
    else Subsequence(xs, ys[..|ys| - 1])
  }

  lemma {:induction false} SubsequenceReflexive<T>(xs: seq<T>)
    ensures Subsequence(xs, xs)
  {
    if xs != [] {
      SubsequenceReflexive(xs[..|xs| - 1]);
    }
  }

  /** A subsequence stays one when the longer sequence grows. */
  lemma {:induction false} SubsequenceExtend<T>(xs: seq<T>, ys: seq<T>, y: T)
    requires Subsequence(xs, ys)
    ensures Subsequence(xs, ys + [y])
    decreases |ys|, 1
  {
    var zs := ys + [y];
    assert zs[..|zs| - 1] == ys;
    if xs != [] && xs[|xs| - 1] == y {
      SubsequenceDropLast(xs, ys);
    }
  }

  /** A subsequence stays one when it loses its last element. */
  lemma {:induction false} SubsequenceDropLast<T>(xs: seq<T>, ys: seq<T>)
    requires xs != [] && Subsequence(xs, ys)
    ensures Subsequence(xs[..|xs| - 1], ys)
    decreases |ys|, 0
  {
    var init := xs[..|xs| - 1];
    var ys' := ys[..|ys| - 1];
    assert ys' + [ys[|ys| - 1]] == ys;
    if xs[|xs| - 1] != ys[|ys| - 1] {
      SubsequenceDropLast(xs, ys');
    }
    SubsequenceExtend(init, ys', ys[|ys| - 1]);
  }

  /** The elements that satisfy `keep`, in their original order. */
  function Filter<T(!new)>(xs: seq<T>, keep: T -> bool): (r: seq<T>)
    ensures |r| <= |xs|
    ensures forall x :: x in r <==> x in xs && keep(x)
  {
    if xs == [] then []
    else
      var init := xs[..|xs| - 1];
      var last := xs[|xs| - 1];
      assert xs == init + [last];
      Filter(init, keep) + (if keep(last) then [last] else [])
  }

  lemma {:induction false} FilterSubsequence<T(!new)>(xs: seq<T>, keep: T -> bool)
    ensures Subsequence(Filter(xs, keep), xs)
  {
    if xs != [] {
      var init := xs[..|xs| - 1];
      var last := xs[|xs| - 1];
      var kept := Filter(init, keep);
      FilterSubsequence(init, keep);
      assert init + [last] == xs;
      if keep(last) {
        var k := kept + [last];
        assert k[..|k| - 1] == kept;
        assert xs[..|xs| - 1] == init;
      } else {
        assert Filter(xs, keep) == kept;
        SubsequenceExtend(kept, init, last);
      }
    }
  }

  lemma {:induction false} FilterIdempotent<T(!new)>(xs: seq<T>, keep: T -> bool)
    ensures Filter(Filter(xs, keep), keep) == Filter(xs, keep)
  {
    if xs != [] {
      var init := xs[..|xs| - 1];
      var last := xs[|xs| - 1];
      var kept := Filter(init, keep);
      FilterIdempotent(init, keep);
      if keep(last) {
        var k := kept + [last];
        assert k[..|k| - 1] == kept;
        assert Filter(k, keep) == Filter(kept, keep) + [last];
      } else {
        assert Filter(xs, keep) == kept;
      }
    }
  }

  /** Filtering keeps every copy of a kept element and no copy of a dropped one. */
  lemma {:induction false} FilterCounts<T(!new)>(xs: seq<T>, keep: T -> bool)
    ensures forall x :: multiset(Filter(xs, keep))[x] == if keep(x) then multiset(xs)[x] else 0
  {
    if xs != [] {
      var init := xs[..|xs| - 1];
      var last := xs[|xs| - 1];
      FilterCounts(init, keep);
      assert xs == init + [last];
      assert multiset(xs) == multiset(init) + multiset{last};
      assert multiset(Filter(xs, keep)) == multiset(Filter(init, keep)) + multiset(if keep(last) then [last] else []);
    }
  }

  /** The values `f` gives, in order, skipping the elements it gives None for. */
  function FilterMap<T, U>(xs: seq<T>, f: T -> Option<U>): (r: seq<U>)
    ensures |r| <= |xs|
  {
    if xs == [] then []
    else
      var init := xs[..|xs| - 1];
      var last := xs[|xs| - 1];
      assert xs == init + [last];
      FilterMap(init, f) + (match f(last) case Some(y) => [y] case None => [])
  }

  lemma {:induction false} FilterMapAppend<T(!new), U>(a: seq<T>, b: seq<T>, f: T -> Option<U>)
    ensures FilterMap(a + b, f) == FilterMap(a, f) + FilterMap(b, f)
    decreases |b|
  {
    if b == [] {
      assert a + b == a;
    } else {
      var init := b[..|b| - 1];
      assert (a + b)[..|a + b| - 1] == a + init;
      assert (a + b)[|a + b| - 1] == b[|b| - 1];
      FilterMapAppend(a, init, f);
    }
  }

  /** A value is kept exactly when some element maps to it. */
  lemma {:induction false} FilterMapMembers<T(!new), U>(xs: seq<T>, f: T -> Option<U>)
    ensures forall y :: y in FilterMap(xs, f) ==> exists x :: x in xs && f(x) == Some(y)
    ensures forall x :: x in xs && f(x).Some? ==> f(x).value in FilterMap(xs, f)
  {
    if xs != [] {
      var init := xs[..|xs| - 1];
      var last := xs[|xs| - 1];
      assert xs == init + [last];
      FilterMapMembers(init, f);
    }
  }

  /** The index of the first element that is `good`, `|xs|` when there is none. */
  function FirstIndex<T>(xs: seq<T>, good: T -> bool): (i: nat)
    ensures i <= |xs|
    ensures i < |xs| ==> good(xs[i])
    ensures forall j :: 0 <= j < i ==> !good(xs[j])
  {
    if xs == [] then 0
    else if good(xs[0]) then 0
    else
      var i := 1 + FirstIndex(xs[1..], good);
      assert forall j :: 1 <= j < i ==> xs[1..][j - 1] == xs[j];
      i
  }

  /** The first good index is the one before which nothing is good. */
  lemma FirstIndexIs<T>(xs: seq<T>, good: T -> bool, k: nat)
    requires k <= |xs|
    requires k < |xs| ==> good(xs[k])
    requires forall j :: 0 <= j < k ==> !good(xs[j])
    ensures FirstIndex(xs, good) == k
  {
  }
}
