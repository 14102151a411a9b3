/** Shared vocabulary of both servers: optional body fields, JavaScript
    truthiness of those fields, and the shape of an HTTP reply. */
module Common {

  /** An optional value; a request-body field that was not sent is `None`. */
  datatype Option<+T> = None | Some(value: T)

  /** JavaScript truthiness of a string-valued body field, as checked by
      `if (!field)`: an absent field and the empty string are both falsy. */
  predicate Truthy(field: Option<string>)
  {
    field.Some? && field.value != ""
  }

  const BadRequest: nat := 400
  const Forbidden: nat := 403
  const NotFound: nat := 404
  const ServerError: nat := 500

  /** What a handler sends back. The text of a message is not modelled,
      only its status and any data it carries. */
  datatype Reply<Row> =
    | Message                        // 200 with a plain-text confirmation
    | Created(code: string)          // 200 "Room created with code: <code>"
    | One(row: Row)                  // 200 with one JSON row
    | All(rows: map<string, Row>)    // 200 with every row (order not modelled)
    | Failure(status: nat)           // an error status
  {
    function Status(): nat
    {
      if Failure? then status else 200
    }
  }
}
