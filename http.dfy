/** The values that cross the wire between the page and the notes API:
    the Note document, JSON bodies, server responses as the handlers
    build them, and replies as the page's `fetch` sees them. */
module Http {
  import opened Wrappers
  import opened Text

  /** Store timestamps, as an abstract ordered clock value. */
  type Timestamp = int

  /** A Note document: store-assigned `_id`, title, content and the two
      timestamps the schema's `timestamps` option maintains. */
  datatype Note = Note(id: string, title: string, content: string, createdAt: Timestamp, updatedAt: Timestamp)

  /** A JSON value as the code inspects it. An object's members are kept
      with their `String(...)` rendering; arrays the page reads are arrays
      of notes; a single note travels as `JNote`; any other number, string
      or boolean body is a `JScalar`, which the page only ever rejects. */
  datatype Json =
    | JNull
    | JScalar
    | JArray(notes: seq<Note>)
    | JNote(note: Note)
    | JObject(fields: map<string, string>)

  /** A response as a route handler returns it through `NextResponse.json`. */
  datatype Response = Response(status: nat, body: Json)

  /** A reply as `fetch` hands it to the page: the status line, the
      `content-type` header (empty when absent), the raw text `res.text()`
      yields, and what `res.json()` yields (`None` when it throws). */
  datatype Reply = Reply(status: nat, statusText: string, contentType: string, text: string, json: Option<Json>)

  /** What awaiting `fetch` produced: a reply, or a thrown error and its message. */
  datatype Outcome = Replied(reply: Reply) | Threw(message: string)

  /** `res.ok`: a status in the range 200-299. */
  predicate IsOk(r: Reply) {
    200 <= r.status <= 299
  }

  datatype Verb = Get | Post | Put | Delete

  /** The JSON body `{ title, content }` of a create or update request. */
  datatype Payload = Payload(title: string, content: string)

  /** A request the page issues. */
  datatype Request = Request(verb: Verb, path: string, payload: Option<Payload>)

  const NOTES_PATH: string := "/api/notes"

  /** `/api/notes/${id}`. */
  function NotePath(id: string): string {
    NOTES_PATH + "/" + id
  }

  const JSON_CONTENT_TYPE: string := "application/json"

  /** The page's view of a response a handler returned: `NextResponse.json`
      labels it as JSON and the browser parses it back to the same value.
      The status text and serialised text are chosen by the transport. */
  function Deliver(resp: Response, statusText: string, text: string): Reply {
    Reply(resp.status, statusText, JSON_CONTENT_TYPE, text, Some(resp.body))
  }
}
