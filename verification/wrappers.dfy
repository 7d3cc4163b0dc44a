/** An optional value. The older page keeps `currentRoll` and `possibleMoves`
    `undefined` until the first roll; `None` stands for that, and a guard that
    would read a property of `undefined` (and so throw) returns `None` too. */
module Wrappers {

  datatype Option<+T> = None | Some(value: T) {

    predicate IsFailure() {
      None?
    }

    function PropagateFailure<U>(): Option<U>
      requires None?
    {
      None
    }

    function Extract(): T
      requires Some?
    {
      value
    }

    /** The value, or `default` when there is none */
    function GetOr(default: T): T {
      match this
      case Some(v) => v
      case None => default
    }
  }
}
