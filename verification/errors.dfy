/** Python-level failure outcomes of the request handler. The handler either
    returns a value or lets an exception escape to the serverless host; this
    module names the exceptions the model distinguishes. */
module Errors {

  /** The exceptions the model distinguishes. `ValueError` arises only in
      `Matching.FindRelevant` on an empty rule list, which the handler, with
      its two hardcoded rules, never passes. */
  datatype PyError =
    | ValueError          // `max` of an empty sequence
    | TypeError           // `in` or `[...]` on a JSON value that does not support it
    | KeyError(key: string)  // a missing key in a JSON object
    | ForeignError        // raised inside the embedding model or the similarity library

  /** A Python computation: a value, or an exception that escapes. */
  datatype Result<+T> = Ok(value: T) | Raised(error: PyError)
}
