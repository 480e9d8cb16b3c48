/** Values shared by the channel and the admin predicate: the Java exceptions the
    tests catch become error values instead of control flow. */
module Common {

  /** The exception classes the tests distinguish. */
  datatype Error = NullPointer | IllegalArgument | IOError

  /** An optional reference: `None` stands for a Java `null`. */
  datatype Option<+T> = None | Some(value: T)

  /** Either the value a call returns or the exception it throws. */
  datatype Result<+T> = Ok(value: T) | Err(error: Error)

  function Min(a: int, b: int): (m: int)
    ensures m <= a && m <= b
    ensures m == a || m == b
  {
    if a <= b then a else b
  }
}
