/** `sum(array)`: `array.reduce((a, b) => a + b, 0)`. JavaScript numbers are
    doubles, but every total here is a small integer, so `int` is exact. */
module Sums {

  /** The left fold of `+` starting at 0 */
  function Sum(xs: seq<int>): int {
    SumFrom(0, xs)
  }

  /** One step of `reduce`: the accumulator so far plus the rest */
  function SumFrom(acc: int, xs: seq<int>): int
    decreases |xs|
  {
    if xs == [] then acc else SumFrom(acc + xs[0], xs[1..])
  }

  /** Reference total, recursing from the right */
  function Total(xs: seq<int>): int
    decreases |xs|
  {
    if xs == [] then 0 else xs[0] + Total(xs[1..])
  }

  lemma {:induction false} SumFromIsTotal(acc: int, xs: seq<int>)
    ensures SumFrom(acc, xs) == acc + Total(xs)
    decreases |xs|
  {
    if xs != [] {
      SumFromIsTotal(acc + xs[0], xs[1..]);
    }
  }

  /** The fold computes the arithmetic total; the empty total is 0 */
  lemma SumIsTotal(xs: seq<int>)
    ensures Sum(xs) == Total(xs)
    ensures xs == [] ==> Sum(xs) == 0
  {
    SumFromIsTotal(0, xs);
  }

  lemma {:induction false} TotalAppend(xs: seq<int>, ys: seq<int>)
    ensures Total(xs + ys) == Total(xs) + Total(ys)
    decreases |xs|
  {
    if xs == [] {
      assert xs + ys == ys;
    } else {
      assert (xs + ys)[1..] == xs[1..] + ys;
      TotalAppend(xs[1..], ys);
    }
  }

  /** The total of a concatenation is the sum of the totals */
  lemma SumAppend(xs: seq<int>, ys: seq<int>)
    ensures Sum(xs + ys) == Sum(xs) + Sum(ys)
  {
    SumIsTotal(xs);
    SumIsTotal(ys);
    SumIsTotal(xs + ys);
    TotalAppend(xs, ys);
  }

  /** The total of a two-dice roll */
  lemma SumPair(a: int, b: int)
    ensures Sum([a, b]) == a + b
  {
    assert [a, b][1..] == [b];
    assert [b][1..] == [];
    assert SumFrom(a + b, []) == a + b;
    assert SumFrom(a, [b]) == a + b;
    assert SumFrom(0, [a, b]) == SumFrom(0 + a, [b]);
  }

  lemma SumExample()
    ensures Sum([]) == 0
    ensures Sum([4, 2, 10]) == 16
  {
  }
}
