/** Error values for the exceptions the modelled Python code can raise, and
    the Result / Outcome wrappers that carry them instead of exceptions. */
module Wrappers {

  /** The Python exceptions that reach the callers of the modelled code. */
  datatype Error =
    | KeyError        // a dict lookup `d[k]` with `k` not a key
    | ReshapeError    // `tensor.reshape` to a shape with a different element count
    | AssertionError  // a failed `assert`
    | IndexError      // a list subscript `xs[i]` with `i >= len(xs)`
    | RuntimeError    // `torch.cat` of an empty list of tensors

  datatype Result<+T> = Ok(value: T) | Err(error: Error)

  datatype Outcome = Pass | Fail(error: Error)
}
