/** The notes page: the component state (`notes`, `loading`, `title`,
    `content`, `editingId`, `search`, `error`) and the handlers that move
    it, plus the pure pieces they use: reading a reply body, turning a
    failed reply into a message, and the search view over `notes`.
    Every network reply and the answer to the delete confirmation are
    parameters of the handler that awaits them. */
module Page {
  import opened Wrappers
  import opened Text
  import opened Filtering
  import opened Http

  const ERROR_KEY: string := "error"
  const NON_JSON_KEY: string := "_nonJson"
  /** How much of a non-JSON body an error message shows. */
  const DIAGNOSTIC_LENGTH: nat := 200
  const TITLE_REQUIRED: string := "Title is required"
  const REQUEST_FAILED: string := "Request failed"
  const SOMETHING_WENT_WRONG: string := "Something went wrong"

  /** JavaScript's `s || fallback` on strings. */
  function Or(s: string, fallback: string): string {
    if s != "" then s else fallback
  }

  /** The `content-type` header mentions `application/json`. */
  predicate IsJson(r: Reply) {
    Contains(r.contentType, JSON_CONTENT_TYPE)
  }

  /** `readJsonSafe`: the parsed JSON for a JSON reply (`None` when parsing
      throws), otherwise the raw text wrapped as `{ _nonJson: text }`. */
  function ReadJsonSafe(r: Reply): Option<Json> {
    if IsJson(r) then r.json else Some(JObject(map[NON_JSON_KEY := r.text]))
  }

  /** `${res.status} ${res.statusText}`. */
  function StatusLine(r: Reply): string {
    NatToString(r.status) + " " + r.statusText
  }

  /** `getErrorMessage`: the body's `error` member, else the first 200
      characters of a non-empty non-JSON body, else the status line. It
      is total: a body that fails to parse falls through to the status
      line. */
  function GetErrorMessage(r: Reply): (m: string)
    ensures IsJson(r) && r.json.Some? && r.json.value.JObject? && ERROR_KEY in r.json.value.fields
            ==> m == r.json.value.fields[ERROR_KEY]
    ensures !IsJson(r) && r.text != "" ==> m == Prefix(r.text, DIAGNOSTIC_LENGTH) && |m| <= DIAGNOSTIC_LENGTH
    ensures !IsJson(r) && r.text == "" ==> m == StatusLine(r)
    ensures IsJson(r) && (r.json.None? || !r.json.value.JObject?) ==> m == StatusLine(r)
    ensures IsJson(r) && r.json.Some? && r.json.value.JObject? && ERROR_KEY !in r.json.value.fields
            && NON_JSON_KEY in r.json.value.fields && r.json.value.fields[NON_JSON_KEY] != ""
            ==> m == Prefix(r.json.value.fields[NON_JSON_KEY], DIAGNOSTIC_LENGTH)
    ensures IsJson(r) && r.json.Some? && r.json.value.JObject? && ERROR_KEY !in r.json.value.fields
            && (NON_JSON_KEY !in r.json.value.fields || r.json.value.fields[NON_JSON_KEY] == "")
            ==> m == StatusLine(r)
    ensures m == "" ==> IsJson(r) && r.json.Some? && r.json.value.JObject?
                        && ERROR_KEY in r.json.value.fields && r.json.value.fields[ERROR_KEY] == ""
  {
    match ReadJsonSafe(r)
    case Some(JObject(fields)) =>
      if ERROR_KEY in fields then fields[ERROR_KEY]
      else if NON_JSON_KEY in fields && fields[NON_JSON_KEY] != "" then Prefix(fields[NON_JSON_KEY], DIAGNOSTIC_LENGTH)
      else StatusLine(r)
    case _ => StatusLine(r)
  }

  /** The request failed: `fetch` threw or `res.ok` is false. */
  predicate Failed(o: Outcome) {
    o.Threw? || !IsOk(o.reply)
  }

  /** The message a failed submit shows: `getErrorMessage` or
      `'Request failed'` for a bad reply, the thrown message or
      `'Something went wrong'` for a throw. Never empty. */
  function SubmitError(o: Outcome): (m: string)
    requires Failed(o)
    ensures m != ""
    ensures o.Replied? && GetErrorMessage(o.reply) != "" ==> m == GetErrorMessage(o.reply)
    ensures o.Replied? && GetErrorMessage(o.reply) == "" ==> m == REQUEST_FAILED
    ensures o.Threw? && o.message != "" ==> m == o.message
    ensures o.Threw? && o.message == "" ==> m == SOMETHING_WENT_WRONG
  {
    var thrown := match o
      case Replied(r) => Or(GetErrorMessage(r), REQUEST_FAILED)
      case Threw(message) => message;
    Or(thrown, SOMETHING_WENT_WRONG)
  }

  /** What `loadNotes` leaves in `notes`: the body when the reply is ok
      and its body is a JSON array, and the empty list on every other
      path (non-ok reply, non-array or unparsable body, a throw). */
  function LoadedNotes(o: Outcome): (ns: seq<Note>)
    ensures ns != [] ==> o.Replied? && IsOk(o.reply) && IsJson(o.reply) && o.reply.json == Some(JArray(ns))
    ensures o.Replied? && IsOk(o.reply) && IsJson(o.reply) && o.reply.json.Some? && o.reply.json.value.JArray?
            ==> ns == o.reply.json.value.notes
  {
    match o
    case Threw(_) => []
    case Replied(r) =>
      if IsOk(r) then
        match ReadJsonSafe(r)
        case Some(JArray(ns)) => ns
        case _ => []
      else []
  }

  /** The search query as the filter uses it: lower-cased, then trimmed. */
  function Query(search: string): string {
    Trim(ToLower(search))
  }

  /** A note matches a query when its lower-cased title or content
      contains it. */
  predicate Matches(n: Note, q: string) {
    Contains(ToLower(n.title), q) || Contains(ToLower(n.content), q)
  }

  /** The callback `(n) => ...includes(q)` handed to `filter`. */
  function Matcher(q: string): Note -> bool {
    n => Matches(n, q)
  }

  /** The `filtered` memo: all of `notes` for a blank search, otherwise
      the notes that match the query, in their original order. */
  function Filter(notes: seq<Note>, search: string): (r: seq<Note>)
    ensures IsBlank(search) ==> r == notes
    ensures !IsBlank(search) ==> forall n :: n in r <==> n in notes && Matches(n, Query(search))
    ensures IsSubsequence(r, notes)
  {
    var q := Query(search);
    LowerBlank(search);
    if q == "" then
      SubsequenceOfSelf(notes);
      notes
    else
      var r := Keep(notes, Matcher(q));
      KeepSubsequence(notes, Matcher(q));
      forall n
        ensures n in r <==> n in notes && Matches(n, q)
      {
        KeepMember(notes, Matcher(q), n);
      }
      r
  }

  /** For a non-blank search every matching note keeps all its
      occurrences and no other note remains: the result is exactly the
      matching subsequence. */
  lemma FilterCount(notes: seq<Note>, search: string, n: Note)
    requires !IsBlank(search)
    ensures multiset(Filter(notes, search))[n] == if Matches(n, Query(search)) then multiset(notes)[n] else 0
  {
    LowerBlank(search);
    var q := Query(search);
    KeepCount(notes, Matcher(q), n);
  }

  /** The search ignores letter case: a query gives the same view as its
      lower-cased form (so "SHOP" finds what "shop" finds). */
  lemma FilterIgnoresCase(notes: seq<Note>, search: string)
    ensures Filter(notes, search) == Filter(notes, ToLower(search))
  {
    ToLowerIdempotent(search);
  }

  /** `notes.filter((n) => n._id !== id)`: the list minus every entry with
      that id, order and all other entries kept. */
  function WithoutId(notes: seq<Note>, id: string): (r: seq<Note>)
    ensures forall i :: 0 <= i < |r| ==> r[i].id != id
    ensures forall n: Note :: n.id != id ==> multiset(r)[n] == multiset(notes)[n]
    ensures IsSubsequence(r, notes)
  {
    var r := Keep(notes, (n: Note) => n.id != id);
    forall n: Note | n.id != id
      ensures multiset(r)[n] == multiset(notes)[n]
    {
      KeepCount(notes, (x: Note) => x.id != id, n);
    }
    KeepSubsequence(notes, (n: Note) => n.id != id);
    r
  }

  /** `if (editingId)`: an id is set and, being a string, non-empty. */
  predicate IsEditing(editingId: Option<string>) {
    editingId.Some? && editingId.value != ""
  }

  /** The request `handleSubmit` issues for a form: none for a blank
      title; otherwise the trimmed title and the content as typed, sent
      with PUT to the note being edited when an edit is under way and
      with POST to the collection when not. */
  function SubmitRequest(title: string, content: string, editingId: Option<string>): (sent: Option<Request>)
    ensures sent.None? <==> IsBlank(title)
    ensures sent.Some? ==>
              && sent.value.payload == Some(Payload(Trim(title), content))
              && !IsBlank(sent.value.payload.value.title)
              && (sent.value.verb == Put <==> IsEditing(editingId))
              && (sent.value.verb == Put ==> sent.value.path == NotePath(editingId.value))
              && (sent.value.verb != Put ==> sent.value.verb == Post && sent.value.path == NOTES_PATH)
  {
    if Trim(title) == "" then None
    else
      var payload := Payload(Trim(title), content);
      TrimIdempotent(title);
      if IsEditing(editingId) then Some(Request(Put, NotePath(editingId.value), Some(payload)))
      else Some(Request(Post, NOTES_PATH, Some(payload)))
  }

  /** The state of the `Home` component. */
  class NotesPage {
    var notes: seq<Note>
    var loading: bool
    var title: string
    var content: string
    var editingId: Option<string>
    var search: string
    var error: Option<string>

    /** The initial `useState` values. */
    constructor ()
      ensures notes == [] && loading && title == "" && content == ""
      ensures editingId == None && search == "" && error == None
    {
      notes, loading, title, content := [], true, "", "";
      editingId, search, error := None, "", None;
    }

    /** The list the page shows. */
    function Filtered(): seq<Note>
      reads this
    {
      Filter(notes, search)
    }

    /** `loadNotes`, given the outcome of the `GET /api/notes` it issues: `notes` is
        replaced by the body or emptied, and `loading` ends false on every
        path; the form, search and error are untouched. */
    method LoadNotes(o: Outcome) returns (sent: Request)
      modifies this
      ensures sent == Request(Get, NOTES_PATH, None)
      ensures notes == LoadedNotes(o) && !loading
      ensures title == old(title) && content == old(content) && editingId == old(editingId)
      ensures search == old(search) && error == old(error)
    {
      loading := true;
      sent := Request(Get, NOTES_PATH, None);
      match o {
        case Threw(_) =>
          notes := [];
        case Replied(r) =>
          if !IsOk(r) {
            notes := [];
          } else {
            var body := ReadJsonSafe(r);
            if body.Some? && body.value.JArray? {
              notes := body.value.notes;
            } else {
              notes := [];
            }
          }
      }
      loading := false;
    }

    /** `startEdit(n)`: the form now edits `n`; the list is untouched. */
    method StartEdit(n: Note)
      modifies this
      ensures editingId == Some(n.id) && title == n.title && content == n.content
      ensures notes == old(notes) && loading == old(loading)
      ensures search == old(search) && error == old(error)
    {
      editingId := Some(n.id);
      title := n.title;
      content := n.content;
    }

    /** The Cancel button: back to an empty "new note" form. */
    method Cancel()
      modifies this
      ensures editingId == None && title == "" && content == ""
      ensures notes == old(notes) && loading == old(loading)
      ensures search == old(search) && error == old(error)
    {
      editingId := None;
      title := "";
      content := "";
    }

    /** `handleSubmit`, given the outcome of the create or update request
        and, for a success, of the reload that follows. A blank title is
        refused locally and nothing is sent. Otherwise the trimmed title
        and the content as typed go to `PUT /api/notes/{editingId}` when an
        edit is under way and to `POST /api/notes` when not. A failure
        shows its message and keeps the form; a success clears the form
        and the error and reloads the list. */
    method Submit(o: Outcome, reload: Outcome) returns (sent: Option<Request>)
      modifies this
      ensures sent == SubmitRequest(old(title), old(content), old(editingId))
      ensures sent.None? ==> error == Some(TITLE_REQUIRED)
      ensures sent.Some? && Failed(o) ==> error == Some(SubmitError(o))
      ensures sent.None? || Failed(o) ==>
                && title == old(title) && content == old(content) && editingId == old(editingId)
                && notes == old(notes) && loading == old(loading)
      ensures sent.Some? && !Failed(o) ==>
                && title == "" && content == "" && editingId == None && error == None
                && notes == LoadedNotes(reload) && !loading
      ensures search == old(search)
    {
      error := None;
      sent := SubmitRequest(title, content, editingId);
      if sent.None? {
        error := Some(TITLE_REQUIRED);
        return;
      }
      if Failed(o) {
        error := Some(SubmitError(o));
      } else {
        // the same reset as the Cancel button
        Cancel();
        var _ := LoadNotes(reload);
      }
    }

    /** `remove(id)`, given the answer to the confirmation and the outcome
        of `DELETE /api/notes/{id}`. A refusal sends nothing; a failure
        raises the alert and keeps the list; a success drops every entry
        with that id from the list locally. */
    method Remove(id: string, confirmed: bool, o: Outcome) returns (sent: Option<Request>, alerted: bool)
      modifies this
      ensures sent == if confirmed then Some(Request(Delete, NotePath(id), None)) else None
      ensures alerted <==> confirmed && Failed(o)
      ensures notes == if confirmed && !Failed(o) then WithoutId(old(notes), id) else old(notes)
      ensures title == old(title) && content == old(content) && editingId == old(editingId)
      ensures loading == old(loading) && search == old(search) && error == old(error)
    {
      alerted := false;
      if !confirmed {
        return None, false;
      }
      sent := Some(Request(Delete, NotePath(id), None));
      if Failed(o) {
        alerted := true;
      } else {
        notes := WithoutId(notes, id);
      }
    }
  }
}
