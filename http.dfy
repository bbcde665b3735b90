/** What a route sends back: a status code and a JSON payload. */
module Http {
  import opened JsValues

  datatype Payload =
    | Message(text: string)     // `JSON.stringify({message: text})`
    | Record(fields: Document)  // one document or projection
    | Records(rows: seq<Document>)
    | NoContent

  datatype Response = Response(status: int, payload: Payload)

  /** The answer of every route's `catch` block. */
  const InternalError: Response := Response(500, Message("Internal Server Error!"))

  /** What a create route does with a request: refuse it with a response, or build the
      document it then saves (the save and the 201 answer carrying the stored document are
      database I/O). */
  datatype Outcome = Refused(response: Response) | Created(doc: Document)

  /** `{...body, [key]: value}`: the spread copies the body, the named property comes last
      and so wins over one of the same name in the body. */
  function WithProperty(body: Document, key: string, value: JsValue): (r: Document)
    ensures key in r && r[key] == value
    ensures r.Keys == body.Keys + {key}
    ensures forall k :: k in body && k != key ==> r[k] == body[k]
  {
    body[key := value]
  }

  /** Whether some record in the response carries property `key`. */
  predicate Exposes(r: Response, key: string) {
    match r.payload
    case Record(fields) => key in fields
    case Records(rows) => exists i :: 0 <= i < |rows| && key in rows[i]
    case _ => false
  }
}
