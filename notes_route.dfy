/** The collection handlers of `/api/notes`: `GET` lists every note, most
    recently updated first; `POST` validates and trims the title, defaults
    the content and inserts one note. The Note collection is a class whose
    `notes` sequence the insert extends; the id and the clock value the
    store assigns to a new document are parameters. */
module NotesRoute {
  import opened Wrappers
  import opened Text
  import opened Http

  const TITLE_REQUIRED: string := "Title is required"

  /** `{ error: 'Title is required' }` with status 400. */
  const TITLE_REQUIRED_RESPONSE: Response := Response(400, JObject(map["error" := TITLE_REQUIRED]))

  /** The fields `const { title, content } = body || {}` picks out of the
      parsed request body; a null or non-object body leaves both `None`. */
  datatype PostInput = PostInput(title: Option<string>, content: Option<string>)

  /** The check `!title || !title.trim()` and the trimmed title it lets
      through. */
  function ValidatedTitle(title: Option<string>): (r: Option<string>)
    ensures r.None? <==> title.None? || IsBlank(title.value)
    ensures r.Some? ==> r.value == Trim(title.value) && !IsBlank(r.value) && Trim(r.value) == r.value
  {
    match title
    case None => None
    case Some(t) =>
      if t == "" || Trim(t) == "" then None
      else
        TrimIdempotent(t);
        Some(Trim(t))
  }

  /** `content || ''`: a missing or empty content becomes `''`, anything
      else is kept as sent. */
  function ContentOrEmpty(content: Option<string>): (r: string)
    ensures content.Some? ==> r == content.value
    ensures content.None? ==> r == ""
  {
    match content
    case None => ""
    case Some(c) => if c == "" then "" else c
  }

  /** What every stored note satisfies: a non-blank title and
      `createdAt <= updatedAt`. */
  predicate WellFormed(n: Note) {
    !IsBlank(n.title) && n.createdAt <= n.updatedAt
  }

  /** Most recently updated first (`sort({ updatedAt: -1 })`). */
  predicate NewestFirst(s: seq<Note>) {
    forall i, j :: 0 <= i < j < |s| ==> s[i].updatedAt >= s[j].updatedAt
  }

  /** Inserts `n` into a newest-first sequence after every note at least as
      recent, keeping the order and adding exactly that one note. */
  function InsertByRecency(s: seq<Note>, n: Note): (r: seq<Note>)
    requires NewestFirst(s)
    ensures |r| == |s| + 1 && (r[0] == n || (s != [] && r[0] == s[0]))
    ensures NewestFirst(r)
  {
    if s == [] || s[0].updatedAt < n.updatedAt then
      ConsNewestFirst(n, s);
      [n] + s
    else
      var rest := InsertByRecency(s[1..], n);
      ConsNewestFirst(s[0], rest);
      [s[0]] + rest
  }

  /** The insertion adds exactly the one note and loses none. */
  lemma {:induction false} InsertKeepsNotes(s: seq<Note>, n: Note)
    requires NewestFirst(s)
    ensures multiset(InsertByRecency(s, n)) == multiset(s) + multiset{n}
  {
    if s != [] && s[0].updatedAt >= n.updatedAt {
      InsertKeepsNotes(s[1..], n);
      assert s == [s[0]] + s[1..];
    }
  }

  /** A note at least as recent as the head of a newest-first sequence
      can go in front of it. */
  lemma ConsNewestFirst(n: Note, s: seq<Note>)
    requires NewestFirst(s)
    requires s != [] ==> n.updatedAt >= s[0].updatedAt
    ensures NewestFirst([n] + s)
  {
  }

  /** With pairwise distinct `updatedAt` values there is exactly one
      newest-first ordering of a collection. */
  lemma {:induction false} NewestFirstUnique(a: seq<Note>, b: seq<Note>)
    requires multiset(a) == multiset(b)
    requires NewestFirst(a) && NewestFirst(b)
    requires forall i, j :: 0 <= i < j < |a| ==> a[i].updatedAt != a[j].updatedAt
    ensures a == b
  {
    if a != [] {
      SameHead(a, b);
      TailMultiset(a);
      TailMultiset(b);
      NewestFirstUnique(a[1..], b[1..]);
    }
  }

  /** Two newest-first orderings of one collection with distinct
      timestamps start with the same note. */
  lemma SameHead(a: seq<Note>, b: seq<Note>)
    requires a != [] && multiset(a) == multiset(b)
    requires NewestFirst(a) && NewestFirst(b)
    requires forall i, j :: 0 <= i < j < |a| ==> a[i].updatedAt != a[j].updatedAt
    ensures b != [] && a[0] == b[0]
  {
    assert a[0] in multiset(b);
    assert b != [] && b[0] in multiset(a);
    var j :| 0 <= j < |a| && a[j] == b[0];
    var k :| 0 <= k < |b| && b[k] == a[0];
    assert a[0].updatedAt >= b[0].updatedAt;
    assert b[0].updatedAt >= a[0].updatedAt;
  }

  lemma TailMultiset(s: seq<Note>)
    requires s != []
    ensures multiset(s[1..]) == multiset(s) - multiset{s[0]}
  {
    assert s == [s[0]] + s[1..];
  }

  /** No two notes share an id. */
  predicate UniqueIds(ns: seq<Note>) {
    forall i, j :: 0 <= i < j < |ns| ==> ns[i].id != ns[j].id
  }

  function IdsOf(ns: seq<Note>): set<string> {
    set n | n in ns :: n.id
  }

  predicate AllWellFormed(ns: seq<Note>) {
    forall n :: n in ns ==> WellFormed(n)
  }

  /** Appending a note under an unused id keeps the ids unique. */
  lemma AppendFreshId(ns: seq<Note>, n: Note)
    requires UniqueIds(ns) && n.id !in IdsOf(ns)
    ensures UniqueIds(ns + [n])
  {
    assert forall i :: 0 <= i < |ns| ==> ns[i].id in IdsOf(ns);
  }

  /** Appending the note created from a non-blank title keeps every note
      well formed: its stored, trimmed title is still non-blank. */
  lemma AppendCreated(ns: seq<Note>, n: Note, title: string)
    requires AllWellFormed(ns)
    requires !IsBlank(title) && n.title == Trim(title) && n.createdAt <= n.updatedAt
    ensures AllWellFormed(ns + [n])
  {
    TrimIdempotent(title);
  }

  /** The Note collection. */
  class NoteStore {
    var notes: seq<Note>

    /** Ids are unique and every stored note is well formed. */
    ghost predicate Valid()
      reads this
    {
      UniqueIds(notes) && AllWellFormed(notes)
    }

    function Ids(): set<string>
      reads this
    {
      IdsOf(notes)
    }

    constructor ()
      ensures Valid() && notes == []
    {
      notes := [];
    }

    /** `Note.create`: the schema trims the title, stamps both timestamps
        with the current time, and the document is inserted under the id
        the store assigns. */
    method Create(title: string, content: string, id: string, now: Timestamp) returns (n: Note)
      requires Valid() && id !in Ids() && !IsBlank(title)
      modifies this
      ensures Valid()
      ensures n == Note(id, Trim(title), content, now, now)
      ensures notes == old(notes) + [n]
    {
      n := Note(id, Trim(title), content, now, now);
      AppendFreshId(notes, n);
      AppendCreated(notes, n, title);
      notes := notes + [n];
    }

    /** `POST /api/notes`: a missing, empty or whitespace-only title is
        answered with 400 before the store is touched; otherwise one note
        with the trimmed title and the defaulted content is created and
        returned with 201. */
    method Post(input: PostInput, id: string, now: Timestamp) returns (resp: Response)
      requires Valid() && id !in Ids()
      modifies this
      ensures Valid()
      ensures resp.status == 400 <==> input.title.None? || IsBlank(input.title.value)
      ensures resp.status == 400 ==> resp == TITLE_REQUIRED_RESPONSE && notes == old(notes)
      ensures resp.status != 400 ==>
                && resp.status == 201
                && resp.body == JNote(Note(id, Trim(input.title.value), ContentOrEmpty(input.content), now, now))
                && notes == old(notes) + [resp.body.note]
    {
      var title := ValidatedTitle(input.title);
      if title.None? {
        return TITLE_REQUIRED_RESPONSE;
      }
      var note := Create(title.value, ContentOrEmpty(input.content), id, now);
      resp := Response(201, JNote(note));
    }

    /** `GET /api/notes`: every stored note exactly once, most recently
        updated first; the store is only read. */
    method Get() returns (resp: Response)
      ensures resp.status == 200 && resp.body.JArray?
      ensures multiset(resp.body.notes) == multiset(notes)
      ensures NewestFirst(resp.body.notes)
    {
      var sorted: seq<Note> := [];
      var i := 0;
      while i < |notes|
        invariant 0 <= i <= |notes|
        invariant NewestFirst(sorted)
        invariant multiset(sorted) == multiset(notes[..i])
      {
        assert notes[..i + 1] == notes[..i] + [notes[i]];
        InsertKeepsNotes(sorted, notes[i]);
        sorted := InsertByRecency(sorted, notes[i]);
        i := i + 1;
      }
      assert notes[..i] == notes;
      resp := Response(200, JArray(sorted));
    }
  }
}
