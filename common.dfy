/** Shared value types of the batch job: optional values, success/failure
    results, and the values a YAML configuration document can hold. */
module Common {

  /** A value that may be undefined (pandas' NaN in a numeric column). */
  datatype Option<+T> = None | Some(value: T)

  /** The outcome of a stage that either yields a value or raises with a message. */
  datatype Result<+T, +E> = Success(value: T) | Failure(error: E)

  /** A value read from the YAML configuration. Integers and strings are the
      ones the job inspects; any other YAML value (float, bool, list, ...) is
      kept as its text and only ever copied into the output record. */
  datatype Value = Int(i: int) | Str(s: string) | Other(text: string)

  /** The configuration document as a key-to-value mapping. */
  type Config = map<string, Value>
}
