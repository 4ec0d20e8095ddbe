/** The Option and Result types, and the index set of a filter, shared by every module of the model. */
module Wrappers {

  /** Python's `None` versus a present value. */
  datatype Option<+T> = None | Some(value: T)

  /** A value, or the name of the Python exception that aborted the computation. */
  datatype Result<+T> = Success(value: T) | Failure(exception: string)

  /** The indices of `s` whose element passes `test`. */
  function IndicesWhere<T>(s: seq<T>, test: T -> bool): set<nat> {
    set k: nat | k < |s| && test(s[k])
  }

  lemma IndicesWhereSnoc<T>(s: seq<T>, test: T -> bool)
    requires s != []
    ensures |s| - 1 !in IndicesWhere(s[..|s| - 1], test)
    ensures IndicesWhere(s, test)
      == IndicesWhere(s[..|s| - 1], test) + (if test(s[|s| - 1]) then {|s| - 1} else {})
  {
  }
}
