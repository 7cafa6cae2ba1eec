/**
 * The argument kinds a Python caller may pass to the Users constructors, and
 * the checks both versions of Users perform on them before building anything.
 */
module Validation {
  import opened Common
  import opened Matrices

  /** An argument expected to be a list or ndarray: None, an array-like value, or anything else. */
  datatype ArrayArg = Absent | ArrayLike(m: Matrix) | NotArray

  /** An argument expected to be callable: None, a callable, or a value that is not callable. */
  datatype CallableArg<+F> = NoFunction | Callable(f: F) | NotCallable

  /** The `size` argument: None, a (rows, cols) tuple, or a value that is not a tuple. */
  datatype SizeArg = NoSize | SizeTuple(rows: nat, cols: nat) | NotTuple

  /**
   * The checks shared by both constructors, in the order they run: profiles of
   * the wrong type, a non-callable behaviour function, neither profiles nor
   * size, and a size that is not a tuple when profiles are absent.
   */
  function CheckUserArgs<F>(profiles: ArrayArg, interact: CallableArg<F>, size: SizeArg): (r: Option<Error>)
    ensures r.None? <==> !profiles.NotArray? && !interact.NotCallable? && (profiles.Absent? ==> size.SizeTuple?)
    ensures (r.Some? && r.value.ValueError?) <==>
      !profiles.NotArray? && !interact.NotCallable? && profiles.Absent? && size.NoSize?
    ensures r.Some? ==> r.value.TypeError? || r.value.ValueError?
    ensures profiles.NotArray? || interact.NotCallable? ==> r.Some? && r.value.TypeError?
  {
    if profiles.NotArray? then
      Some(TypeError("actual_user_profiles must be a list or numpy.ndarray"))
    else if interact.NotCallable? then
      Some(TypeError("interact_with_items must be callable"))
    else if profiles.Absent? && size.NoSize? then
      Some(ValueError("actual_user_profiles and size can't both be None"))
    else if profiles.Absent? && !size.SizeTuple? then
      Some(TypeError("size must be a tuple"))
    else
      None
  }

  /** Every matrix a random generator asked for `size=(rows, cols)` may return has that shape. */
  predicate DrawsOfShape(draws: seq<Matrix>, rows: nat, cols: nat) {
    forall k :: 0 <= k < |draws| ==> IsShape(draws[k], rows, cols)
  }
}
