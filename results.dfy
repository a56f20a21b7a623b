/** Optional values and the exceptions the Java code throws, as values. */
module Results {

  /** A reference that may be null. */
  datatype Option<+T> = None | Some(value: T)

  /** The Java exceptions raised on the paths this model covers. */
  datatype Error =
    | IllegalArgument        // duplicate column, wrong section
    | NoSuchElement          // SortedMap.lastKey() on an empty map
    | StringIndexOutOfBounds // String.substring(0, 2) on a shorter string
    | NumberFormat           // new Integer(String) on a non-integer
    | ClassCast              // a cell read as a type it does not hold
    | NullPointer            // a required reference was null

  /** The value a Java method returns, or the exception it throws. */
  datatype Result<+T> = Ok(value: T) | Err(error: Error)

  /** The outcome of a Java void method: it returns, or it throws. */
  datatype Outcome = Pass | Fail(error: Error)
}
