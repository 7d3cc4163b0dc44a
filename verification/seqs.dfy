/** Sequence notions shared by the game model: subsequences (order-preserving
    selections), order-preserving filtering (JavaScript's `Array.filter`) and
    duplicate-freedom. */
module Seqs {

  /** `a` is obtained from `b` by deleting elements and keeping the order of the
      rest. Defined from the back, the way the powerset fold grows its lists. */
  predicate IsSubseq<T(==)>(a: seq<T>, b: seq<T>)
    decreases |b|
  {
    if a == [] then true
    else if b == [] then false
    else
      (a[|a| - 1] == b[|b| - 1] && IsSubseq(a[..|a| - 1], b[..|b| - 1]))
      || IsSubseq(a, b[..|b| - 1])
  }

  /** No value occurs twice */
  predicate Distinct<T(==)>(xs: seq<T>) {
    forall i, j :: 0 <= i < j < |xs| ==> xs[i] != xs[j]
  }

  /** Only the empty sequence is a subsequence of the empty sequence */
  lemma SubseqOfEmpty<T>(a: seq<T>)
    requires IsSubseq(a, [])
    ensures a == []
  {
  }

  /** Appending a value to the larger sequence keeps a subsequence one; appending
      it to both keeps it one as well. */
  lemma SubseqSnoc<T>(a: seq<T>, b: seq<T>, v: T)
    requires IsSubseq(a, b)
    ensures IsSubseq(a, b + [v])
    ensures IsSubseq(a + [v], b + [v])
  {
    assert (b + [v])[..|b|] == b;
    assert (a + [v])[..|a|] == a;
  }

  /** Every value of a subsequence occurs in the sequence it was taken from */
  lemma {:induction false} SubseqElements<T>(a: seq<T>, b: seq<T>)
    requires IsSubseq(a, b)
    ensures forall x :: x in a ==> x in b
    decreases |b|
  {
    if a != [] && b != [] {
      var a', b' := a[..|a| - 1], b[..|b| - 1];
      assert b == b' + [b[|b| - 1]];
      if a[|a| - 1] == b[|b| - 1] && IsSubseq(a', b') {
        SubseqElements(a', b');
        assert a == a' + [a[|a| - 1]];
      } else {
        SubseqElements(a, b');
      }
    }
  }

  lemma {:induction false} SubseqLength<T>(a: seq<T>, b: seq<T>)
    requires IsSubseq(a, b)
    ensures |a| <= |b|
    decreases |b|
  {
    if a != [] && b != [] {
      if a[|a| - 1] == b[|b| - 1] && IsSubseq(a[..|a| - 1], b[..|b| - 1]) {
        SubseqLength(a[..|a| - 1], b[..|b| - 1]);
      } else {
        SubseqLength(a, b[..|b| - 1]);
      }
    }
  }

  /** A subsequence of a duplicate-free sequence is duplicate-free */
  lemma {:induction false} SubseqDistinct<T>(a: seq<T>, b: seq<T>)
    requires IsSubseq(a, b) && Distinct(b)
    ensures Distinct(a)
    decreases |b|
  {
    if a != [] && b != [] {
      var a', b' := a[..|a| - 1], b[..|b| - 1];
      assert Distinct(b');
      if a[|a| - 1] == b[|b| - 1] && IsSubseq(a', b') {
        SubseqDistinct(a', b');
        SubseqElements(a', b');
        assert b[|b| - 1] !in b';
        assert a == a' + [a[|a| - 1]];
      } else {
        SubseqDistinct(a, b');
      }
    }
  }

  /** `xs.filter(keep)`: the elements that satisfy `keep`, in their original
      order. */
  function Filter<T(==,!new)>(xs: seq<T>, keep: T -> bool): (r: seq<T>)
    ensures forall x :: x in r <==> x in xs && keep(x)
    ensures |r| <= |xs|
    decreases |xs|
  {
    if xs == [] then []
    else
      var init, last := xs[..|xs| - 1], xs[|xs| - 1];
      assert xs == init + [last];
      var r' := Filter(init, keep);
      if keep(last) then r' + [last] else r'
  }

  /** The filtered elements keep their original order */
  lemma {:induction false} FilterSubseq<T(!new)>(xs: seq<T>, keep: T -> bool)
    ensures IsSubseq(Filter(xs, keep), xs)
    decreases |xs|
  {
    if xs != [] {
      var init, last := xs[..|xs| - 1], xs[|xs| - 1];
      assert xs == init + [last];
      FilterSubseq(init, keep);
      SubseqSnoc(Filter(init, keep), init, last);
    }
  }

  /** Each kept value occurs as often as in the input; each other value is gone */
  lemma {:induction false} FilterCounts<T(!new)>(xs: seq<T>, keep: T -> bool)
    ensures forall x :: multiset(Filter(xs, keep))[x] == if keep(x) then multiset(xs)[x] else 0
    decreases |xs|
  {
    if xs != [] {
      var init, last := xs[..|xs| - 1], xs[|xs| - 1];
      assert xs == init + [last];
      FilterCounts(init, keep);
    }
  }

  /** Filtering with a test that every element passes changes nothing */
  lemma {:induction false} FilterKeepsAll<T(!new)>(xs: seq<T>, keep: T -> bool)
    requires forall i :: 0 <= i < |xs| ==> keep(xs[i])
    ensures Filter(xs, keep) == xs
    decreases |xs|
  {
    if xs != [] {
      FilterKeepsAll(xs[..|xs| - 1], keep);
      assert xs == xs[..|xs| - 1] + [xs[|xs| - 1]];
    }
  }

  /** Filtering out at least one element makes the sequence strictly shorter */
  lemma {:induction false} FilterShrinks<T(!new)>(xs: seq<T>, keep: T -> bool, x: T)
    requires x in xs && !keep(x)
    ensures |Filter(xs, keep)| < |xs|
  {
    var r := Filter(xs, keep);
    FilterCounts(xs, keep);
    FilterSubseq(xs, keep);
    assert multiset(r)[x] == 0 < multiset(xs)[x];
    SubseqLength(r, xs);
    if |r| == |xs| {
      SubseqFull(r, xs);
    }
  }

  /** A subsequence as long as the whole is the whole */
  lemma {:induction false} SubseqFull<T>(a: seq<T>, b: seq<T>)
    requires IsSubseq(a, b) && |a| == |b|
    ensures a == b
    decreases |b|
  {
    if a != [] {
      var a', b' := a[..|a| - 1], b[..|b| - 1];
      if a[|a| - 1] == b[|b| - 1] && IsSubseq(a', b') {
        SubseqFull(a', b');
        assert a == a' + [a[|a| - 1]] && b == b' + [b[|b| - 1]];
      } else {
        SubseqLength(a, b');
      }
    }
  }
}
