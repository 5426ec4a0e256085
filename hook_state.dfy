/**
 * The state of the notes controller (`useNotes`) as a value, and each step of
 * its operations as a transition on that value.
 *
 * Every asynchronous operation is two transitions: the apply step runs up to
 * the service call, the settle step runs when the call has resolved and gets
 * its response. What the source reads from the render that created the
 * callback (the captured `notes` and `selectedNoteId`) is an explicit
 * parameter, because it can differ from the current state by then.
 * Functional updates (`setNotes(prev => ...)`) act on the current state.
 */
module HookState {
  import opened JsValues
  import opened Notes

  /** The kind of in-flight operation recorded in `pending`. */
  datatype OpKind = CreateOp | UpdateOp | DeleteOp

  datatype State = State(
    notes: seq<Note>,
    selectedNoteId: Option<string>,
    isLoading: bool,
    isSaving: bool,
    error: Option<string>,
    pending: map<string, OpKind>)

  const CreateFailed: string := "Failed to create note."
  const UpdateFailed: string := "Failed to update note."
  const DeleteFailed: string := "Failed to delete note."

  /** The state before anything has happened: `isLoading` starts true. */
  function Initial(): State {
    State([], None, true, false, None, map[])
  }

  // ---------------------------------------------------------------- messages

  /** `err?.message || fallback`. */
  function FailureMessage(err: Option<Error>, fallback: string): (m: string)
    ensures err.Some? && err.value.message != "" ==> m == err.value.message
    ensures err.None? || err.value.message == "" ==> m == fallback
    ensures fallback != "" ==> m != ""
  {
    if err.Some? && err.value.message != "" then err.value.message else fallback
  }

  /** `err.message || String(err)`; `String` of an `Error` without a message is `"Error"`. */
  function LoadMessage(err: Error): (m: string)
    ensures m != ""
    ensures err.message != "" ==> m == err.message
  {
    if err.message != "" then err.message else "Error"
  }

  /** `err || !data`: the condition under which create and update roll back. */
  predicate Failed<T>(res: Response<T>) {
    res.error.Some? || res.data.None?
  }

  // ------------------------------------------------------------ temporary ids

  function DigitChar(d: nat): char
    requires d < 10
  {
    ('0' as int + d) as char
  }

  function DigitValue(c: char): nat {
    if '0' <= c <= '9' then c as int - '0' as int else 0
  }

  /** The decimal rendering of a number, as a template literal prints it. */
  function Decimal(n: nat): (s: string)
    ensures |s| >= 1
  {
    if n < 10 then [DigitChar(n)] else Decimal(n / 10) + [DigitChar(n % 10)]
  }

  function ParseDecimal(s: string): nat {
    if s == [] then 0 else ParseDecimal(s[..|s| - 1]) * 10 + DigitValue(s[|s| - 1])
  }

  lemma {:induction false} DecimalRoundTrip(n: nat)
    ensures ParseDecimal(Decimal(n)) == n
  {
    if n >= 10 {
      var s := Decimal(n);
      assert s[..|s| - 1] == Decimal(n / 10);
      DecimalRoundTrip(n / 10);
    }
  }

  /** `temp-${Date.now()}` for a clock reading in milliseconds. */
  function TempId(clock: nat): (t: string)
    ensures |t| > 5 && t[..5] == "temp-"
  {
    "temp-" + Decimal(clock)
  }

  /** Distinct clock readings give distinct temporary ids (equal readings give equal ones). */
  lemma TempIdInjective(a: nat, b: nat)
    requires TempId(a) == TempId(b)
    ensures a == b
  {
    assert TempId(a)[5..] == Decimal(a);
    assert TempId(b)[5..] == Decimal(b);
    DecimalRoundTrip(a);
    DecimalRoundTrip(b);
  }

  // ------------------------------------------------------- selection and load

  /** `selectedNote`: the first note carrying the selected id, or null. */
  function SelectedNote(st: State): (r: Option<Note>)
    ensures r.None? <==> st.selectedNoteId.None? || !HasId(st.notes, st.selectedNoteId.value)
    ensures r.Some? ==> st.selectedNoteId == Some(r.value.id)
    ensures r.Some? ==> exists i :: 0 <= i < |st.notes| && st.notes[i] == r.value && forall j :: 0 <= j < i ==> Some(st.notes[j].id) != st.selectedNoteId
  {
    if st.selectedNoteId.None? then None else FindById(st.notes, st.selectedNoteId.value)
  }

  /** `selectNote(id)`: stores `id || null`. */
  function Select(st: State, id: Value): State {
    st.(selectedNoteId := if Truthy(id) then Some(id.s) else None)
  }

  /** `load` up to the list call. */
  function LoadStarted(st: State): State {
    st.(isLoading := true, error := None)
  }

  /** The notes a list response leaves behind: its data when that is an array, `[]` otherwise. */
  function LoadedNotes(res: Option<Response<ListData>>): (s: seq<Note>)
    ensures res.Some? && res.value.data.Some? && res.value.data.value.Rows? ==> s == res.value.data.value.rows
    ensures !(res.Some? && res.value.data.Some? && res.value.data.value.Rows?) ==> s == []
  {
    if res.Some? && res.value.data.Some? && res.value.data.value.Rows? then res.value.data.value.rows else []
  }

  /** `load` once the list call resolved to `res` (`None`: it resolved to nothing). */
  function LoadFinished(st: State, res: Option<Response<ListData>>): State {
    st.(error := if res.Some? && res.value.error.Some? then Some(LoadMessage(res.value.error.value)) else st.error,
        notes := LoadedNotes(res),
        isLoading := false)
  }

  // ------------------------------------------------------------------ create

  /** The provisional note a create prepends. */
  function Provisional(title: Value, content: Value, clock: nat, now: string): (n: Note)
    ensures n.id == TempId(clock)
    ensures n.title == Str(Or(title, UntitledTitle)) && Truthy(n.title)
    ensures n.content == Str(Or(content, ""))
    ensures n.createdAt == now && n.updatedAt == now
  {
    Note(TempId(clock), Str(Or(title, UntitledTitle)), Str(Or(content, "")), now, now)
  }

  /** `createNote` up to the service call. */
  function CreateApplied(st: State, title: Value, content: Value, clock: nat, now: string): State {
    var optimistic := Provisional(title, content, clock, now);
    st.(error := None,
        isSaving := true,
        notes := [optimistic] + st.notes,
        selectedNoteId := Some(optimistic.id),
        pending := st.pending[optimistic.id := CreateOp])
  }

  /** `createNote` once the service call resolved; `capturedSelected` is the render-time selection. */
  function CreateSettled(st: State, tempId: string, capturedSelected: Option<string>, res: Response<Note>): State {
    if Failed(res) then
      st.(notes := RemoveById(st.notes, tempId),
          selectedNoteId := if capturedSelected == Some(tempId) then None else st.selectedNoteId,
          error := Some(FailureMessage(res.error, CreateFailed)),
          pending := st.pending - {tempId},
          isSaving := false)
    else
      st.(notes := [res.data.value] + RemoveById(st.notes, tempId),
          selectedNoteId := Some(res.data.value.id),
          pending := st.pending - {tempId},
          isSaving := false)
  }

  /** The create settle step as evidently intended: the current selection decides the rollback. */
  function CreateSettledCorrected(st: State, tempId: string, res: Response<Note>): State {
    if Failed(res) then
      st.(notes := RemoveById(st.notes, tempId),
          selectedNoteId := if st.selectedNoteId == Some(tempId) then None else st.selectedNoteId,
          error := Some(FailureMessage(res.error, CreateFailed)),
          pending := st.pending - {tempId},
          isSaving := false)
    else
      CreateSettled(st, tempId, st.selectedNoteId, res)
  }

  // ------------------------------------------------------------------ update

  /** `{ ...prev, title?, content?, updated_at }`: only defined fields overwrite. */
  function Merge(prev: Note, title: Value, content: Value, now: string): (next: Note)
    ensures next.id == prev.id && next.createdAt == prev.createdAt && next.updatedAt == now
    ensures next.title == if title.Undefined? then prev.title else title
    ensures next.content == if content.Undefined? then prev.content else content
  {
    prev.(title := if title.Undefined? then prev.title else title,
          content := if content.Undefined? then prev.content else content,
          updatedAt := now)
  }

  /** How the apply step of an update ends. */
  datatype UpdateStart =
    | Skipped                                       // falsy id: returns at once
    | Missing                                       // id not in the captured list
    | Started(key: string, prev: Note, next: Note)  // optimistic merge applied

  /** The decision `updateNote` takes before touching the list; `captured` is the render-time list. */
  function UpdateBegin(id: Value, title: Value, content: Value, captured: seq<Note>, now: string): (start: UpdateStart)
    ensures !Truthy(id) <==> start.Skipped?
    ensures start.Missing? <==> Truthy(id) && !HasId(captured, id.s)
    ensures start.Started? ==>
      && start.key == id.s
      && Some(start.prev) == FindById(captured, id.s)
      && start.next == Merge(start.prev, title, content, now)
  {
    if !Truthy(id) then Skipped
    else
      var found := FindById(captured, id.s);
      if found.None? then Missing
      else Started(id.s, found.value, Merge(found.value, title, content, now))
  }

  /** `updateNote` up to the service call. */
  function UpdateApplied(st: State, start: UpdateStart): State {
    match start
    case Skipped => st
    case Missing => st.(error := None, isSaving := false)
    case Started(key, _, next) =>
      st.(error := None,
          isSaving := true,
          notes := ReplaceById(st.notes, key, next),
          pending := st.pending[key := UpdateOp])
  }

  /** `updateNote` once the service call resolved. */
  function UpdateSettled(st: State, key: string, prev: Note, res: Response<Note>): State {
    if Failed(res) then
      st.(notes := ReplaceById(st.notes, key, prev),
          error := Some(FailureMessage(res.error, UpdateFailed)),
          pending := st.pending - {key},
          isSaving := false)
    else
      st.(notes := ReplaceById(st.notes, key, res.data.value),
          pending := st.pending - {key},
          isSaving := false)
  }

  // ------------------------------------------------------------------ delete

  /** `deleteNote` up to the service call; `capturedSelected` is the render-time selection. */
  function DeleteApplied(st: State, id: Value, capturedSelected: Option<string>): State {
    if !Truthy(id) then st
    else
      st.(error := None,
          isSaving := true,
          notes := RemoveById(st.notes, id.s),
          selectedNoteId := if capturedSelected == Some(id.s) then None else st.selectedNoteId,
          pending := st.pending[id.s := DeleteOp])
  }

  /** `deleteNote` once the service call resolved; a failure puts back `capturedNotes`. */
  function DeleteSettled(st: State, key: string, capturedNotes: seq<Note>, res: Response<seq<string>>): State {
    if res.error.Some? then
      st.(notes := capturedNotes,
          error := Some(FailureMessage(res.error, DeleteFailed)),
          pending := st.pending - {key},
          isSaving := false)
    else
      st.(pending := st.pending - {key}, isSaving := false)
  }
}
