/** What a route handler sends back: a 200 with its payload, or an error
    response described by its status code, the `errorType` of its body and
    the guard that produced it (which stands for the message text). */
module Replies {

  datatype Option<+T> = None | Some(value: T)

  /** JavaScript truthiness of an optional string request field: an absent
      field (`undefined`) and the empty string are both falsy. */
  predicate Truthy(s: Option<string>) {
    s.Some? && s.value != ""
  }

  /** The `errorType` field of an error body. */
  datatype ErrorKind = Validation | NotAllowed | Internal

  /** Which check rejected the request. */
  datatype Cause =
    | MissingField   // name or description empty or absent
    | DuplicateName  // a record with that name already exists
    | NotOwner       // the record's supplier is not the caller
    | MissingRecord  // a field of an `undefined` lookup result was read: the handler throws
    | InvalidPrice
    | InvalidStock

  /** A 200 with its payload, or an error with its HTTP status code. */
  datatype Reply<+T> = Ok(value: T) | Failure(status: int, kind: ErrorKind, cause: Cause)
}
