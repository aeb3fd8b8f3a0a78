/** A value that may be absent: the model of TypeScript's `T | undefined`.
    Named `Maybe` to keep it apart from the `{label, value}` options the
    basket dropdown shows. */
module Maybes {

  datatype Maybe<+T> = Nothing | Just(value: T) {

    /** The wrapped value, or `default` when absent (`x ?? default`). */
    function GetOr(default: T): (r: T)
      ensures Just? ==> r == value
      ensures Nothing? ==> r == default
    {
      match this
      case Just(v) => v
      case Nothing => default
    }
  }
}
