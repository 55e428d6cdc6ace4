// Optional values. JavaScript's `null`/`undefined` results and the NaN
// that `parseInt` yields on a non-numeric string are modelled as None.
module Wrappers {
  datatype Option<T> = None | Some(value: T)
  {
    predicate IsSome() { Some? }

    function GetOr(default: T): T
    {
      match this
      case None => default
      case Some(v) => v
    }
  }
}
