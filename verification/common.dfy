/** Small definitions shared by every module of the model. */
module Common {

  /** Python's `None` versus a present value; for an exchange call, `None`
      also stands for "the call raised". */
  datatype Option<+T> = None | Some(value: T)

  /** `xs` is `ys` with some elements dropped and the rest kept in their
      original order: what a Python list comprehension with an `if` produces. */
  ghost predicate IsSubsequence<T>(xs: seq<T>, ys: seq<T>)
    decreases |ys|
  {
    if ys == [] then xs == []
    else (xs != [] && xs[0] == ys[0] && IsSubsequence(xs[1..], ys[1..]))
         || IsSubsequence(xs, ys[1..])
  }
}
