/** Lists whose order does not matter: filtering and mapping them, up to permutation.

    Two snapshots that were built from the same rows in different orders are
    compared this way, as is one before and after a repository is merged. */
module Seqs {

  function Filter<T>(xs: seq<T>, keep: T -> bool): seq<T> {
    if xs == [] then []
    else
      var last := xs[|xs| - 1];
      Filter(xs[..|xs| - 1], keep) + (if keep(last) then [last] else [])
  }

  function Map<S, T>(xs: seq<S>, f: S -> T): (ys: seq<T>)
    ensures |ys| == |xs|
    ensures forall i :: 0 <= i < |xs| ==> ys[i] == f(xs[i])
  {
    seq(|xs|, i requires 0 <= i < |xs| => f(xs[i]))
  }

  ghost predicate Same<T>(xs: seq<T>, ys: seq<T>) {
    multiset(xs) == multiset(ys)
  }

  lemma SplitLast<T>(xs: seq<T>)
    requires xs != []
    ensures xs == xs[..|xs| - 1] + [xs[|xs| - 1]]
    ensures multiset(xs) == multiset(xs[..|xs| - 1]) + multiset{xs[|xs| - 1]}
  {
    assert xs == xs[..|xs| - 1] + [xs[|xs| - 1]];
  }

  lemma {:induction false} FilterCount<T>(xs: seq<T>, keep: T -> bool, x: T)
    ensures multiset(Filter(xs, keep))[x] == if keep(x) then multiset(xs)[x] else 0
  {
    if xs != [] {
      SplitLast(xs);
      FilterCount(xs[..|xs| - 1], keep, x);
    }
  }

  lemma FilterHas<T>(xs: seq<T>, keep: T -> bool)
    ensures forall x :: x in Filter(xs, keep) <==> x in xs && keep(x)
  {
    forall x ensures x in Filter(xs, keep) <==> x in xs && keep(x) {
      FilterCount(xs, keep, x);
      assert x in Filter(xs, keep) <==> x in multiset(Filter(xs, keep));
      assert x in xs <==> x in multiset(xs);
    }
  }

  lemma {:induction false} FilterConcat<T>(xs: seq<T>, ys: seq<T>, keep: T -> bool)
    ensures Filter(xs + ys, keep) == Filter(xs, keep) + Filter(ys, keep)
  {
    if ys == [] {
      assert xs + ys == xs;
    } else {
      FilterConcat(xs, ys[..|ys| - 1], keep);
      assert (xs + ys)[..|xs + ys| - 1] == xs + ys[..|ys| - 1];
    }
  }

  lemma {:induction false} FilterAll<T>(xs: seq<T>, keep: T -> bool)
    requires forall x :: x in xs ==> keep(x)
    ensures Filter(xs, keep) == xs
  {
    if xs != [] {
      SplitLast(xs);
      FilterAll(xs[..|xs| - 1], keep);
    }
  }

  lemma {:induction false} FilterNone<T>(xs: seq<T>, keep: T -> bool)
    requires forall x :: x in xs ==> !keep(x)
    ensures Filter(xs, keep) == []
  {
    if xs != [] {
      FilterNone(xs[..|xs| - 1], keep);
    }
  }

  /** A filter that agrees with another on every element gives the same list. */
  lemma {:induction false} FilterAgrees<T>(xs: seq<T>, keep: T -> bool, keep': T -> bool)
    requires forall x :: x in xs ==> keep(x) == keep'(x)
    ensures Filter(xs, keep) == Filter(xs, keep')
  {
    if xs != [] {
      FilterAgrees(xs[..|xs| - 1], keep, keep');
    }
  }

  lemma FilterLast<T>(xs: seq<T>, x: T, keep: T -> bool)
    ensures Filter(xs + [x], keep) == Filter(xs, keep) + (if keep(x) then [x] else [])
  {
    assert (xs + [x])[..|xs + [x]| - 1] == xs;
  }

  /** A filter after a weaker one. */
  lemma {:induction false} FilterTwice<T(!new)>(xs: seq<T>, weak: T -> bool, keep: T -> bool)
    requires forall x :: keep(x) ==> weak(x)
    ensures Filter(Filter(xs, weak), keep) == Filter(xs, keep)
  {
    if xs != [] {
      FilterTwice(xs[..|xs| - 1], weak, keep);
      var last := xs[|xs| - 1];
      if weak(last) {
        FilterLast(Filter(xs[..|xs| - 1], weak), last, keep);
      } else {
        assert Filter(xs, weak) == Filter(xs[..|xs| - 1], weak);
      }
    }
  }

  /** Filtering what a map leaves in place is mapping what the filter keeps. */
  lemma {:induction false} FilterMap<T>(xs: seq<T>, keep: T -> bool, f: T -> T)
    requires forall x :: keep(f(x)) == keep(x)
    ensures Filter(Map(xs, f), keep) == Map(Filter(xs, keep), f)
  {
    if xs != [] {
      FilterMap(xs[..|xs| - 1], keep, f);
      assert Map(xs, f)[..|xs| - 1] == Map(xs[..|xs| - 1], f);
    }
  }

  lemma MapId<T>(xs: seq<T>, f: T -> T)
    requires forall x :: x in xs ==> f(x) == x
    ensures Map(xs, f) == xs
  {
  }

  function Without<T>(xs: seq<T>, i: nat): seq<T>
    requires i < |xs|
  {
    xs[..i] + xs[i + 1..]
  }

  lemma TakeOut<T>(xs: seq<T>, i: nat)
    requires i < |xs|
    ensures multiset(xs) == multiset(Without(xs, i)) + multiset{xs[i]}
    ensures multiset(Without(xs, i)) == multiset(xs) - multiset{xs[i]}
  {
    assert xs == xs[..i] + [xs[i]] + xs[i + 1..];
  }

  lemma MapWithout<S, T>(xs: seq<S>, i: nat, f: S -> T)
    requires i < |xs|
    ensures Without(Map(xs, f), i) == Map(Without(xs, i), f)
  {
  }

  lemma {:induction false} MapSame<S, T>(xs: seq<S>, ys: seq<S>, f: S -> T)
    requires Same(xs, ys)
    ensures Same(Map(xs, f), Map(ys, f))
    decreases |xs|
  {
    if xs == [] {
      assert |ys| == |multiset(xs)|;
    } else {
      var i, x := |xs| - 1, xs[|xs| - 1];
      assert x in multiset(ys);
      var j :| 0 <= j < |ys| && ys[j] == x;
      TakeOut(xs, i);
      TakeOut(ys, j);
      assert Same(Without(xs, i), Without(ys, j));
      MapSame(Without(xs, i), Without(ys, j), f);
      TakeOut(Map(xs, f), i);
      TakeOut(Map(ys, f), j);
      MapWithout(xs, i, f);
      MapWithout(ys, j, f);
    }
  }

  lemma FilterOne<T>(a: seq<T>, x: T, b: seq<T>, keep: T -> bool)
    ensures Filter(a + ([x] + b), keep) == Filter(a, keep) + ((if keep(x) then [x] else []) + Filter(b, keep))
  {
    FilterConcat(a, [x] + b, keep);
    FilterConcat([x], b, keep);
    assert [x][..0] == [];
  }

  lemma InTheMiddle<T>(a: seq<T>, m: seq<T>, b: seq<T>)
    ensures multiset(a + (m + b)) == multiset(a + b) + multiset(m)
  {
  }

  lemma FilterWithout<T>(xs: seq<T>, i: nat, keep: T -> bool)
    requires i < |xs|
    ensures keep(xs[i]) ==> multiset(Filter(xs, keep)) == multiset(Filter(Without(xs, i), keep)) + multiset([xs[i]])
    ensures !keep(xs[i]) ==> Filter(xs, keep) == Filter(Without(xs, i), keep)
  {
    var a, x, b := xs[..i], xs[i], xs[i + 1..];
    assert xs == a + ([x] + b);
    FilterOne(a, x, b, keep);
    FilterConcat(a, b, keep);
    var fa, fb := Filter(a, keep), Filter(b, keep);
    if keep(x) {
      InTheMiddle(fa, [x], fb);
    } else {
      assert [] + fb == fb;
    }
  }

  lemma {:induction false} FilterSame<T>(xs: seq<T>, ys: seq<T>, keep: T -> bool)
    requires Same(xs, ys)
    ensures Same(Filter(xs, keep), Filter(ys, keep))
    decreases |xs|
  {
    if xs == [] {
      assert |ys| == |multiset(xs)|;
    } else {
      var i, x := |xs| - 1, xs[|xs| - 1];
      assert x in multiset(ys);
      var j :| 0 <= j < |ys| && ys[j] == x;
      TakeOut(xs, i);
      TakeOut(ys, j);
      FilterSame(Without(xs, i), Without(ys, j), keep);
      FilterWithout(xs, i, keep);
      FilterWithout(ys, j, keep);
    }
  }
}
