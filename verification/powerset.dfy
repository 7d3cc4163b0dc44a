/** `powerset(array)`: every non-empty subsequence of the input, built by a left
    fold that starts from `[[]]` and, for each value, appends a copy of every list
    so far extended by that value; the leading empty list is dropped at the end. */
module Powersets {
  import opened Seqs

  function Pow2(n: nat): (r: nat)
    ensures r >= 1
  {
    if n == 0 then 1 else 2 * Pow2(n - 1)
  }

  /** `sets.map((set) => [...set, value])` */
  function Extend(sets: seq<seq<int>>, value: int): seq<seq<int>> {
    seq(|sets|, i requires 0 <= i < |sets| => sets[i] + [value])
  }

  /** The `forEach` over the remaining values, each step doubling the list */
  function Fold(sets: seq<seq<int>>, xs: seq<int>): (r: seq<seq<int>>)
    ensures |r| == |sets| * Pow2(|xs|)
    decreases |xs|
  {
    if xs == [] then sets
    else
      var r := Fold(sets + Extend(sets, xs[0]), xs[1..]);
      assert |r| == 2 * |sets| * Pow2(|xs| - 1);
      r
  }

  /** The list `sets` holds just before `sets.shift()` */
  function Subsets(xs: seq<int>): (r: seq<seq<int>>)
    ensures |r| == Pow2(|xs|)
  {
    Fold([[]], xs)
  }

  /** The exported generator: the fold's result without its first entry */
  function Powerset(xs: seq<int>): (r: seq<seq<int>>)
    ensures |r| == Pow2(|xs|) - 1
    ensures xs == [] ==> r == []
  {
    Subsets(xs)[1..]
  }

  /** A fold step keeps every list built so far, in place, and appends the copies
      extended by the new value after them. */
  lemma {:induction false} FoldSnoc(sets: seq<seq<int>>, xs: seq<int>, v: int)
    ensures Fold(sets, xs + [v]) == Fold(sets, xs) + Extend(Fold(sets, xs), v)
    decreases |xs|
  {
    if xs == [] {
      assert xs + [v] == [v];
      assert [v][1..] == [];
    } else {
      assert (xs + [v])[0] == xs[0];
      assert (xs + [v])[1..] == xs[1..] + [v];
      FoldSnoc(sets + Extend(sets, xs[0]), xs[1..], v);
    }
  }

  /** The fold's list starts with the empty list, holds no other empty list, and
      holds exactly the subsequences of the input. */
  lemma {:induction false} SubsetsShape(xs: seq<int>)
    ensures Subsets(xs)[0] == []
    ensures forall i :: 0 < i < |Subsets(xs)| ==> Subsets(xs)[i] != []
    ensures forall a :: a in Subsets(xs) <==> IsSubseq(a, xs)
    decreases |xs|
  {
    if xs == [] {
      forall a
        ensures a in Subsets(xs) <==> IsSubseq(a, xs)
      {
        if IsSubseq(a, xs) {
          SubseqOfEmpty(a);
        }
      }
    } else {
      var p, v := xs[..|xs| - 1], xs[|xs| - 1];
      assert xs == p + [v];
      var s := Subsets(p);
      SubsetsShape(p);
      FoldSnoc([[]], p, v);
      assert Subsets(xs) == s + Extend(s, v);
      forall a
        ensures a in Subsets(xs) <==> IsSubseq(a, xs)
      {
        if a in s {
          SubseqSnoc(a, p, v);
        } else if a in Extend(s, v) {
          var i :| 0 <= i < |s| && Extend(s, v)[i] == a;
          SubseqSnoc(s[i], p, v);
        }
        if IsSubseq(a, xs) && a != [] {
          var a' := a[..|a| - 1];
          if a[|a| - 1] == v && IsSubseq(a', p) {
            var i :| 0 <= i < |s| && s[i] == a';
            assert a == a' + [v];
            assert Extend(s, v)[i] == a;
          } else {
            assert IsSubseq(a, p);
          }
        }
        if a == [] {
          assert s[0] == a;
        }
      }
    }
  }

  /** A list is produced by `powerset` exactly when it is a non-empty
      subsequence of the input: none is empty, each keeps the input's order, and
      none is missing. */
  lemma PowersetMembers(xs: seq<int>)
    ensures forall a :: a in Powerset(xs) <==> a != [] && IsSubseq(a, xs)
  {
    SubsetsShape(xs);
    var s := Subsets(xs);
    forall a
      ensures a in Powerset(xs) <==> a != [] && IsSubseq(a, xs)
    {
      if a != [] && IsSubseq(a, xs) {
        var i :| 0 <= i < |s| && s[i] == a;
        assert i != 0;
        assert Powerset(xs)[i - 1] == a;
      }
      if a in Powerset(xs) {
        var j :| 0 <= j < |Powerset(xs)| && Powerset(xs)[j] == a;
        assert s[j + 1] == a;
      }
    }
  }

  /** A fold step keeps the list duplicate-free when the new value occurs in
      none of the lists so far. */
  lemma ExtendDistinct(s: seq<seq<int>>, v: int)
    requires Distinct(s)
    requires forall a :: a in s ==> v !in a
    ensures Distinct(s + Extend(s, v))
  {
    var e := Extend(s, v);
    forall i, j | 0 <= i < j < |s + e|
      ensures (s + e)[i] != (s + e)[j]
    {
      if j >= |s| {
        assert (s + e)[j] == s[j - |s|] + [v];
        if i >= |s| {
          assert (s + e)[i] == s[i - |s|] + [v];
          assert (s[i - |s|] + [v])[..|s[i - |s|]|] == s[i - |s|];
          assert (s[j - |s|] + [v])[..|s[j - |s|]|] == s[j - |s|];
        } else {
          assert s[i] in s;
          assert v in (s + e)[j];
        }
      }
    }
  }

  /** For a duplicate-free input no subsequence is produced twice */
  lemma {:induction false} SubsetsDistinct(xs: seq<int>)
    requires Distinct(xs)
    ensures Distinct(Subsets(xs))
    decreases |xs|
  {
    if xs != [] {
      var p, v := xs[..|xs| - 1], xs[|xs| - 1];
      assert xs == p + [v];
      assert Distinct(p);
      var s := Subsets(p);
      SubsetsDistinct(p);
      SubsetsShape(p);
      FoldSnoc([[]], p, v);
      assert Subsets(xs) == s + Extend(s, v);
      forall a | a in s
        ensures v !in a
      {
        SubseqElements(a, p);
        assert v !in p;
      }
      ExtendDistinct(s, v);
    }
  }

  /** For a duplicate-free input `powerset` lists no subsequence twice */
  lemma PowersetDistinct(xs: seq<int>)
    requires Distinct(xs)
    ensures Distinct(Powerset(xs))
  {
    SubsetsDistinct(xs);
  }

  /** The worked example: `powerset([1, 2, 3])`, in this exact order */
  lemma PowersetExample()
    ensures Powerset([1, 2, 3]) == [[1], [2], [1, 2], [3], [1, 3], [2, 3], [1, 2, 3]]
  {
    assert [1, 2, 3] == [1, 2] + [3];
    assert [1, 2] == [1] + [2];
    assert [1] == [] + [1];
    FoldSnoc([[]], [], 1);
    FoldSnoc([[]], [1], 2);
    FoldSnoc([[]], [1, 2], 3);
    assert Extend([[]], 1) == [[1]];
    assert Subsets([1]) == [[], [1]];
    assert [] + [2] == [2] && [1] + [2] == [1, 2];
    assert Extend([[], [1]], 2) == [[2], [1, 2]];
    assert Subsets([1, 2]) == [[], [1], [2], [1, 2]];
    assert [] + [3] == [3] && [1] + [3] == [1, 3] && [2] + [3] == [2, 3] && [1, 2] + [3] == [1, 2, 3];
    assert Extend([[], [1], [2], [1, 2]], 3) == [[3], [1, 3], [2, 3], [1, 2, 3]];
    assert Subsets([1, 2, 3]) == [[], [1], [2], [1, 2], [3], [1, 3], [2, 3], [1, 2, 3]];
  }
}
