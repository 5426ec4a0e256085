/**
 * The notes service layer: argument guards, the row and update payloads it
 * sends to the hosted table, and `handle`, which turns the store's raw reply
 * into the `{data, error}` pair the state controller consumes.
 *
 * The store itself stays abstract: a call either returns at once from a
 * guard (`Reject`) or issues a `Query`; the store's raw reply to that query
 * is a parameter of `Complete`.
 */
module NotesService {
  import opened JsValues
  import opened Notes

  const IdRequired: string := "id is required"
  const TitleRequired: string := "title is required"

  /** The `{title, content}` argument of `createNote` and `updateNote`. */
  datatype NoteInput = NoteInput(title: Value, content: Value)

  /** The row `createNote` inserts. */
  datatype Row = Row(title: Value, content: Value, createdAt: string, updatedAt: string)

  /** The `updates` object of `updateNote`; `None` means the key is absent. */
  datatype Updates = Updates(updatedAt: string, title: Option<Value>, content: Option<Value>)

  /** The store queries the service issues. */
  datatype Query =
    | ListQuery
    | GetQuery(id: Value)
    | InsertQuery(row: Row)
    | UpdateQuery(id: Value, updates: Updates)
    | DeleteQuery(id: Value)

  /** A service call: answered by a guard without touching the store, or sent to the store. */
  datatype Call<T> = Reject(response: Response<T>) | Issue(query: Query)

  /** The store's error object. */
  datatype StoreError = StoreError(message: string)

  /** What the store query resolves to before normalisation. */
  datatype Raw<T> = Raw(data: Option<T>, error: Option<StoreError>)

  /** `handle`: an error wins and drops the data; otherwise the data passes through. */
  function Handle<T>(raw: Raw<T>): (r: Response<T>)
    ensures r.error.Some? <==> raw.error.Some?
    ensures raw.error.Some? ==> r.data.None? && r.error.value.message == raw.error.value.message
    ensures raw.error.None? ==> r.data == raw.data
  {
    if raw.error.Some? then Response(None, Some(Error(raw.error.value.message)))
    else Response(raw.data, None)
  }

  /** The response a call resolves to, given the store's raw reply to an issued query. */
  function Complete<T>(c: Call<T>, raw: Raw<T>): Response<T> {
    match c
    case Reject(response) => response
    case Issue(_) => Handle(raw)
  }

  function Failure<T>(message: string): Response<T> {
    Response(None, Some(Error(message)))
  }

  /** `listNotes`: it has no guard, so it always goes to the store. */
  function ListNotes(): (c: Call<seq<Note>>)
    ensures c.Issue?
  {
    Issue(ListQuery)
  }

  /** `getNoteById`: a falsy id is refused before any store call. */
  function GetNoteById(id: Value): (c: Call<Note>)
    ensures c.Reject? <==> !Truthy(id)
    ensures c.Reject? ==> c.response.data.None? && c.response.error == Some(Error(IdRequired))
    ensures c.Issue? ==> c.query == GetQuery(id)
  {
    if !Truthy(id) then Reject(Failure(IdRequired)) else Issue(GetQuery(id))
  }

  /** The row `createNote` inserts: content defaults to `''`, both timestamps are `now`. */
  function InsertRow(input: NoteInput, now: string): (row: Row)
    ensures row.title == input.title
    ensures row.content == if Truthy(input.content) then input.content else Str("")
    ensures row.createdAt == row.updatedAt == now
  {
    Row(input.title, Str(Or(input.content, "")), now, now)
  }

  /** `createNote`: a falsy title is refused before any store call. */
  function CreateNote(input: NoteInput, now: string): (c: Call<Note>)
    ensures c.Reject? <==> !Truthy(input.title)
    ensures c.Reject? ==> c.response.data.None? && c.response.error == Some(Error(TitleRequired))
    ensures c.Issue? ==> c.query.InsertQuery? && c.query.row == InsertRow(input, now)
  {
    if !Truthy(input.title) then Reject(Failure(TitleRequired))
    else Issue(InsertQuery(InsertRow(input, now)))
  }

  /** The `updates` object: `updated_at` always, `title`/`content` exactly when not `undefined`. */
  function UpdatePayload(input: NoteInput, now: string): (u: Updates)
    ensures u.updatedAt == now
    ensures u.title.Some? <==> !input.title.Undefined?
    ensures u.content.Some? <==> !input.content.Undefined?
    ensures u.title.Some? ==> u.title.value == input.title
    ensures u.content.Some? ==> u.content.value == input.content
  {
    Updates(now,
      if input.title.Undefined? then None else Some(input.title),
      if input.content.Undefined? then None else Some(input.content))
  }

  /** `updateNote`: a falsy id is refused before any store call. */
  function UpdateNote(id: Value, input: NoteInput, now: string): (c: Call<Note>)
    ensures c.Reject? <==> !Truthy(id)
    ensures c.Reject? ==> c.response.data.None? && c.response.error == Some(Error(IdRequired))
    ensures c.Issue? ==> c.query == UpdateQuery(id, UpdatePayload(input, now))
  {
    if !Truthy(id) then Reject(Failure(IdRequired))
    else Issue(UpdateQuery(id, UpdatePayload(input, now)))
  }

  /** `deleteNote`: a falsy id is refused before any store call. */
  function DeleteNote(id: Value): (c: Call<seq<string>>)
    ensures c.Reject? <==> !Truthy(id)
    ensures c.Reject? ==> c.response.data.None? && c.response.error == Some(Error(IdRequired))
    ensures c.Issue? ==> c.query == DeleteQuery(id)
  {
    if !Truthy(id) then Reject(Failure(IdRequired)) else Issue(DeleteQuery(id))
  }

  /**
   * Whatever the store replies, a normalised response never carries both
   * data and an error, and a call refused by a guard resolves the same way
   * whatever the store would have replied.
   */
  lemma ResponseIsExclusive<T>(c: Call<T>, raw: Raw<T>)
    requires c.Reject? ==> c.response.data.None? || c.response.error.None?
    ensures var r := Complete(c, raw); r.data.None? || r.error.None?
    ensures c.Reject? ==> forall other: Raw<T> :: Complete(c, other) == Complete(c, raw)
  {
  }
}
