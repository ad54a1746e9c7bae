# Notes app: a Dafny model of the notes page and the notes collection API

The notes app is a single Next.js page backed by a document store of
notes. This project models its two pieces of logic.

- **The page controller** (`app/page.tsx`). This is the component state: `notes`,
  `loading`, `title`, `content`, `editingId`, `search` and `error`. The
  handlers that change it are `loadNotes`, `startEdit`, Cancel,
  `handleSubmit` and `remove`. It is the class `Page.NotesPage`, and each
  handler is a method. Each method takes the outcome of the `fetch` it
  awaits as a parameter (`Http.Outcome`: a reply, or a thrown error). The
  delete method also takes the user's answer to the confirmation dialog.
  The pure parts are functions:
  - reading a reply body (`readJsonSafe`);
  - the three-tier error message (`getErrorMessage`): the JSON `error`
    member, else at most 200 characters of a non-JSON body, else
    `"<status> <statusText>"`;
  - the search view (`filtered`): a case-insensitive substring match on
    title or content, with the query lower-cased and then trimmed.
- **The collection handlers** (`app/api/notes/route.ts`). The Note
  collection is the class `NotesRoute.NoteStore`, which holds a
  `seq<Note>`. `POST` rejects a missing, empty or whitespace-only title
  with 400 `{ error: 'Title is required' }` before it touches the store.
  Otherwise it creates one note with the trimmed title and with `content`
  defaulted to `''`, and answers 201. `GET` returns every note once, most
  recently updated first. The store's fresh id and its clock are
  parameters of `Post`.

`ClientServer` connects the two sides:
- the page shows the 400 body of `POST` as exactly `Title is required`;
- the list `GET` sends reaches `notes` unchanged;
- the page refuses exactly the titles the handler refuses.

`SearchExamples` works through the search view on two concrete notes.

Modules:
- `Text`: trim, lower-case, `includes`, `slice`, decimal rendering.
- `Filtering`: an order-preserving filter.
- `Http`: the Note and wire values.
- `NotesRoute`, `Page`, `ClientServer`, `SearchExamples`.
- `Wrappers`: `Option`.

## Model

| member | source | states |
|---|---|---|
| `Text.Trim` | app/api/notes/route.ts:14 | `trim()` gives the slice `s[i..j]` where everything before `i` and from `j` on is whitespace, and the slice neither starts nor ends with whitespace |
| `Text.BlankIffAllSpace` | app/page.tsx:113 | `!s.trim()` holds exactly when every character of `s` is whitespace |
| `Text.TrimIdempotent` | models/Note.ts:5 | trimming an already trimmed title changes nothing, so the schema's own `trim` leaves the handler's trimmed title as it is |
| `Text.TrimLowerCommute` | app/page.tsx:104 | lower-casing then trimming the query equals trimming then lower-casing |
| `Text.LowerBlank` | app/page.tsx:104-105 | the lower-cased query is blank exactly when the typed search is blank |
| `Text.ToLower` | app/page.tsx:106 | `toLowerCase` keeps the length and lower-cases each character in place |
| `Text.ToLowerIdempotent` | app/page.tsx:104 | lower-casing twice is lower-casing once |
| `Text.Contains` | app/page.tsx:106 | `includes(q)` holds exactly when `q` is a prefix of some suffix of the string |
| `Text.MissingFirstChar` | app/page.tsx:106 | a string does not include a query whose first character it lacks |
| `Text.Prefix` | app/page.tsx:63 | `slice(0, n)` is a prefix of at most `n` characters: the whole string when it is short enough, otherwise exactly `n` characters |
| `Text.NatToString` | app/page.tsx:65 | the status code renders as a non-empty string of decimal digits, with no leading zero (the first digit is `0` only for the number 0), one digit exactly below 10 |
| `Text.ParseNatToString` | app/page.tsx:65 | the rendered status code reads back as the same number |
| `Filtering.Keep` | app/page.tsx:106 | `filter` keeps only elements the callback accepts, taken from the input, and never grows the list |
| `Filtering.KeepCount` | app/page.tsx:95 | each accepted element keeps every one of its occurrences; a rejected element keeps none |
| `Filtering.KeepMember` | app/page.tsx:106 | an element is in the filtered list exactly when it is in the input and accepted |
| `Filtering.KeepSubsequence` | app/page.tsx:106 | the filtered list keeps the input's order: it is a subsequence of the input |
| `NotesRoute.ValidatedTitle` | app/api/notes/route.ts:13-18 | a title is refused exactly when it is missing, empty or whitespace-only; an accepted title is the trimmed input, non-blank, and stays the same if trimmed again |
| `NotesRoute.ContentOrEmpty` | app/api/notes/route.ts:18 | missing content becomes `''`, and any string content, including `''`, is kept verbatim |
| `NotesRoute.InsertByRecency` | app/api/notes/route.ts:7 | inserting one note into a newest-first list gives a newest-first list one longer, headed by the new note or by the old head |
| `NotesRoute.InsertKeepsNotes` | app/api/notes/route.ts:7 | the insertion adds exactly that one note and loses none: the result is a permutation of the old list plus the note |
| `NotesRoute.NewestFirstUnique` | app/api/notes/route.ts:7 | when `updatedAt` values are distinct, two newest-first orderings of the same notes are equal, so the `GET` order is fully determined (t3, t2, t1 for t1 < t2 < t3) |
| `NotesRoute.SameHead` | app/api/notes/route.ts:7 | two newest-first orderings of the same notes with distinct timestamps start with the same note |
| `NotesRoute.AppendFreshId` | app/api/notes/route.ts:18 | a document `Note.create` inserts under an unused id keeps the collection's ids unique |
| `NotesRoute.AppendCreated` | models/Note.ts:5 | a note created from a non-blank title keeps every stored title non-blank, since the schema's trim of the already trimmed title changes nothing |
| `NotesRoute.NoteStore.Create` | models/Note.ts:3-9 | `Note.create` stores the schema-trimmed title, the content and equal creation and update stamps under the new id. It appends exactly that note and keeps ids unique and titles non-blank |
| `NotesRoute.NoteStore.Post` | app/api/notes/route.ts:11-20 | a missing or blank title gives the 400 `Title is required` response with the store unchanged. Any other title gives 201 with the note whose title is the trimmed input and whose content is the defaulted content; the store grows by exactly that note and the earlier notes are unchanged |
| `NotesRoute.NoteStore.Get` | app/api/notes/route.ts:5-9 | `GET` answers 200 with a permutation of the stored notes, ordered by non-increasing `updatedAt`, and does not change the store |
| `Page.GetErrorMessage` | app/page.tsx:50-66 | the message is the JSON body's `error` member when there is one. A non-empty non-JSON body gives its first 200 characters, and so does a non-empty `_nonJson` member of a JSON object without `error`. Every other case gives `"<status> <statusText>"`: an empty non-JSON body, an unparsable JSON body, a JSON body that is not an object, and an object with neither `error` nor a non-empty `_nonJson`. The message is empty only when the `error` member is `''` |
| `Page.SubmitError` | app/page.tsx:135-148 | a failed submit's error is the extracted message, or `Request failed` when that is empty. A throw gives its message, or `Something went wrong` when there is none. The error is never empty |
| `Page.LoadedNotes` | app/page.tsx:22-47 | `notes` is replaced by the body only for an ok reply whose JSON body is an array. A non-ok reply, a non-array or unparsable body, or a throw leaves it empty |
| `Page.Filter` | app/page.tsx:103-107 | a blank search shows `notes` unchanged. Otherwise a note is shown exactly when its lower-cased title or content includes the lower-cased, trimmed query, and the shown notes keep their order |
| `Page.FilterCount` | app/page.tsx:103-107 | for a non-blank search each matching note is shown as often as it occurs in `notes`, and no other note is shown |
| `Page.FilterIgnoresCase` | app/page.tsx:104 | a search and its lower-cased form show the same notes |
| `Page.WithoutId` | app/page.tsx:95 | the local removal leaves no entry with the deleted id, keeps every other entry as often as before, and keeps the order |
| `Page.SubmitRequest` | app/page.tsx:113-133 | no request for a blank title. Otherwise the payload is the trimmed title, which is non-blank, and the content as typed. It is a PUT to `/api/notes/{editingId}` exactly when an edit is under way, and a POST to `/api/notes` otherwise |
| `Page.NotesPage.constructor` | app/page.tsx:14-20 | the initial state: no notes, loading, an empty form, no edit, an empty search and no error |
| `Page.NotesPage.LoadNotes` | app/page.tsx:22-47 | it issues `GET /api/notes`, and `notes` becomes what `loadNotes` yields for the reply. `loading` is false on every exit path, and the form, search and error are untouched |
| `Page.NotesPage.StartEdit` | app/page.tsx:78-83 | `editingId`, `title` and `content` become the note's id, title and content, and `notes` is untouched |
| `Page.NotesPage.Cancel` | app/page.tsx:182 | `editingId` becomes null and both form fields become `''`; nothing else changes |
| `Page.NotesPage.Submit` | app/page.tsx:110-150 | it sends the request `SubmitRequest` gives for the form as it stood. A blank title sets `Title is required`, sends nothing and changes nothing else. On failure it sets the extracted error and keeps the form, `editingId` and `notes`. On success it clears the form, `editingId` and the error and reloads the list |
| `Page.NotesPage.Remove` | app/page.tsx:85-100 | a refused confirmation sends nothing and changes nothing. A failed DELETE raises the alert and keeps `notes`. A successful one removes every entry with that id locally and leaves everything else untouched |
| `ClientServer.RejectedPostMessage` | app/api/notes/route.ts:15 | the 400 body of `POST` read by the page's `getErrorMessage` yields exactly `Title is required`, and a submit that receives it shows that text |
| `ClientServer.ListReachesPage` | app/api/notes/route.ts:8 | the array `GET` sends becomes the page's `notes` unchanged |
| `ClientServer.TitleChecksAgree` | app/page.tsx:113-117 | the page refuses exactly the titles the handler refuses; the trimmed title the page sends passes the handler unchanged, and the content it sends is stored verbatim |
| `SearchExamples.SearchMilk` | app/page.tsx:103-107 | with the notes "Shopping" and "Work"/"milk", searching "milk" shows only the second |
| `SearchExamples.SearchShopUpperCase` | app/page.tsx:104-106 | with the same notes, "SHOP" shows "Shopping": the search ignores letter case |
| `SearchExamples.SearchEmpty` | app/page.tsx:105 | with the same notes, an empty search shows both |

## Left out

- The server-side `PUT` and `DELETE` handlers of `/api/notes/{id}` (app/api/notes/[id]/route.ts) are not part of this model. The page's choice to issue them is modelled; what the server does with them is not.
- `connectToDB` (lib/mongodb.ts) is left out: the process-wide connection cache, the environment lookup and its logging. Store or connection failures (a 500 from a handler) are left out with it. The health route is left out too.
- Theme toggling and `localStorage` (app/page.tsx:71-72, app/components/ThemeToggle.tsx), the layout and the JSX rendering are presentation. So are `window.scrollTo`, the `alert` text and all `console` logging. The alert is reported only as a boolean result of `Remove`.
- The inputs' `onChange` handlers (`setTitle`, `setContent`, `setSearch`) only copy the typed text into the state; the model reads those fields as they stand. The `maxLength={140}` attribute is browser input enforcement and is not modelled.
- JSON parsing is not modelled. A reply carries the outcome of `res.json()` and the raw text of `res.text()` as given values. A JSON object's member values appear as their `String(...)` rendering. The elements of an array body are taken to be notes.
- `res.clone().json()`, whose result and failure the page ignores, is not modelled.
- `NotesRoute.NoteStore.Post` takes its request body already destructured into optional `title` and `content` strings. A malformed request body (`req.json()` throws) is not modelled. Neither is a non-string `title`: `title.trim` then throws and the framework answers 500.
- `NotesRoute.NoteStore.Post` requires that the store's new id is unused. Id assignment belongs to the store and is not visible in the route.
- `Page.GetErrorMessage`: a `_nonJson` member of a JSON object is modelled only as a string value. A `null`, `false`, `0` or other non-string value is not modelled: the model sees its `String(...)` rendering (such as `"null"`) and shows it, where the page's truthiness test or the failing `.slice` gives the status line.
- `Text.Trim`, `Text.ToLower`: ASCII letter case only, and the ASCII whitespace plus U+00A0, U+2028, U+2029 and U+FEFF. The full Unicode tables of `toLowerCase` and `trim` are not modelled. Lengths count characters, not UTF-16 code units.
- The page's handlers are sequential transitions. Overlapping requests and async interleaving have no defined behaviour in the source and are not modelled. The intermediate `loading = true` during a load is set and cleared within `LoadNotes`.
- Timestamps are abstract integers. Rendering them with `toLocaleString` is presentation.
