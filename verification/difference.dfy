/** `difference(setA, setB)`: copy `setA`, then delete each element of `setB`
    from the copy. Dafny sets are values, so neither argument can be changed by
    the call; the result is a separate value, as `difference` builds a fresh `Set`
    from `setA`. */
module Difference {

  method Difference<T(==)>(setA: set<T>, setB: set<T>) returns (diff: set<T>)
    ensures diff <= setA
    ensures forall x :: x in setB ==> x !in diff
    ensures forall x :: x in setA && x !in setB ==> x in diff
    ensures diff == setA - setB
    ensures setB == {} ==> diff == setA
    ensures setA == setB ==> diff == {}
  {
    diff := setA;
    var rest := setB;
    while rest != {}
      invariant rest <= setB
      invariant diff == setA - (setB - rest)
      decreases rest
    {
      var elem :| elem in rest;
      diff := diff - {elem};
      rest := rest - {elem};
    }
  }
}
