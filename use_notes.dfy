/**
 * The notes controller hook (`useNotes`) as an object: its state cells are
 * fields, each operation step writes them in the source's order, and each
 * method is specified by the matching transition of `HookState`, on which
 * `HookProperties` proves what the source promises.
 */
module UseNotes {
  import opened JsValues
  import opened Notes
  import opened HookState
  import NotesService

  class NotesHook {
    var notes: seq<Note>
    var selectedNoteId: Option<string>
    var isLoading: bool
    var isSaving: bool
    var error: Option<string>
    var pending: map<string, OpKind>

    /** The whole hook state as a value. */
    function Snapshot(): State
      reads this
    {
      State(notes, selectedNoteId, isLoading, isSaving, error, pending)
    }

    /** The `useState` / `useRef` initial values. */
    constructor ()
      ensures Snapshot() == Initial()
    {
      notes := [];
      selectedNoteId := None;
      isLoading := true;
      isSaving := false;
      error := None;
      pending := map[];
    }

    /** `selectedNote`, derived from the current list and selection. */
    function SelectedNote(): (r: Option<Note>)
      reads this
      ensures r.Some? ==> r.value in notes && selectedNoteId == Some(r.value.id)
      ensures r.None? <==> selectedNoteId.None? || !HasId(notes, selectedNoteId.value)
    {
      HookState.SelectedNote(Snapshot())
    }

    method SelectNote(id: Value)
      modifies this
      ensures Snapshot() == Select(old(Snapshot()), id)
    {
      selectedNoteId := if Truthy(id) then Some(id.s) else None;
    }

    /** `load` (and `refresh`) up to `await notesService.listNotes()`. */
    method LoadStart()
      modifies this
      ensures Snapshot() == LoadStarted(old(Snapshot()))
    {
      isLoading := true;
      error := None;
    }

    /** The rest of `load`, once the list call resolved to `res`. */
    method LoadFinish(res: Option<Response<ListData>>)
      modifies this
      ensures Snapshot() == LoadFinished(old(Snapshot()), res)
    {
      if res.Some? && res.value.error.Some? {
        error := Some(LoadMessage(res.value.error.value));
      }
      notes := if res.Some? && res.value.data.Some? && res.value.data.value.Rows? then res.value.data.value.rows else [];
      isLoading := false;
    }

    /**
     * `createNote` up to `await notesService.createNote(...)`; returns the
     * provisional note and the request it sends.
     */
    method CreateApply(title: Value, content: Value, clock: nat, now: string)
      returns (optimistic: Note, request: NotesService.NoteInput)
      modifies this
      ensures optimistic == Provisional(title, content, clock, now)
      ensures request == NotesService.NoteInput(optimistic.title, optimistic.content)
      ensures Snapshot() == CreateApplied(old(Snapshot()), title, content, clock, now)
    {
      error := None;
      isSaving := true;
      var tempId := TempId(clock);
      optimistic := Note(tempId, Str(Or(title, UntitledTitle)), Str(Or(content, "")), now, now);
      notes := [optimistic] + notes;
      selectedNoteId := Some(tempId);
      pending := pending[tempId := CreateOp];
      request := NotesService.NoteInput(optimistic.title, optimistic.content);
    }

    /** The rest of `createNote`; `capturedSelected` is the selection the callback closed over. */
    method CreateSettle(tempId: string, capturedSelected: Option<string>, res: Response<Note>)
      modifies this
      ensures Snapshot() == CreateSettled(old(Snapshot()), tempId, capturedSelected, res)
    {
      if res.error.Some? || res.data.None? {
        notes := RemoveById(notes, tempId);
        if capturedSelected == Some(tempId) {
          selectedNoteId := None;
        }
        error := Some(FailureMessage(res.error, CreateFailed));
        pending := pending - {tempId};
        isSaving := false;
        return;
      }
      var data := res.data.value;
      notes := [data] + RemoveById(notes, tempId);
      selectedNoteId := Some(data.id);
      pending := pending - {tempId};
      isSaving := false;
    }

    /** The rest of `createNote` with the rollback comparing the current selection. */
    method CreateSettleCorrected(tempId: string, res: Response<Note>)
      modifies this
      ensures Snapshot() == CreateSettledCorrected(old(Snapshot()), tempId, res)
    {
      if res.error.Some? || res.data.None? {
        notes := RemoveById(notes, tempId);
        if selectedNoteId == Some(tempId) {
          selectedNoteId := None;
        }
        error := Some(FailureMessage(res.error, CreateFailed));
        pending := pending - {tempId};
        isSaving := false;
        return;
      }
      var data := res.data.value;
      notes := [data] + RemoveById(notes, tempId);
      selectedNoteId := Some(data.id);
      pending := pending - {tempId};
      isSaving := false;
    }

    /**
     * `updateNote` up to `await notesService.updateNote(...)`; `captured` is
     * the list the callback closed over.
     */
    method UpdateApply(id: Value, title: Value, content: Value, captured: seq<Note>, now: string)
      returns (start: UpdateStart)
      modifies this
      ensures start == UpdateBegin(id, title, content, captured, now)
      ensures Snapshot() == UpdateApplied(old(Snapshot()), start)
    {
      if !Truthy(id) {
        return Skipped;
      }
      error := None;
      isSaving := true;
      var prev := FindById(captured, id.s);
      if prev.None? {
        isSaving := false;
        return Missing;
      }
      var next := prev.value;
      if !title.Undefined? {
        next := next.(title := title);
      }
      if !content.Undefined? {
        next := next.(content := content);
      }
      next := next.(updatedAt := now);
      notes := ReplaceById(notes, id.s, next);
      pending := pending[id.s := UpdateOp];
      start := Started(id.s, prev.value, next);
    }

    /** The rest of `updateNote`. */
    method UpdateSettle(key: string, prev: Note, res: Response<Note>)
      modifies this
      ensures Snapshot() == UpdateSettled(old(Snapshot()), key, prev, res)
    {
      if res.error.Some? || res.data.None? {
        notes := ReplaceById(notes, key, prev);
        error := Some(FailureMessage(res.error, UpdateFailed));
        pending := pending - {key};
        isSaving := false;
        return;
      }
      notes := ReplaceById(notes, key, res.data.value);
      pending := pending - {key};
      isSaving := false;
    }

    /**
     * `deleteNote` up to `await notesService.deleteNote(id)`;
     * `capturedSelected` is the selection the callback closed over. Returns
     * the id whose settle step is pending, if any.
     */
    method DeleteApply(id: Value, capturedSelected: Option<string>) returns (key: Option<string>)
      modifies this
      ensures key == if Truthy(id) then Some(id.s) else None
      ensures Snapshot() == DeleteApplied(old(Snapshot()), id, capturedSelected)
    {
      if !Truthy(id) {
        return None;
      }
      error := None;
      isSaving := true;
      notes := RemoveById(notes, id.s);
      if capturedSelected == Some(id.s) {
        selectedNoteId := None;
      }
      pending := pending[id.s := DeleteOp];
      key := Some(id.s);
    }

    /** The rest of `deleteNote`; `capturedNotes` is the list the callback closed over. */
    method DeleteSettle(key: string, capturedNotes: seq<Note>, res: Response<seq<string>>)
      modifies this
      ensures Snapshot() == DeleteSettled(old(Snapshot()), key, capturedNotes, res)
    {
      if res.error.Some? {
        notes := capturedNotes;
        error := Some(FailureMessage(res.error, DeleteFailed));
        pending := pending - {key};
        isSaving := false;
        return;
      }
      pending := pending - {key};
      isSaving := false;
    }
  }

  /**
   * The create flow run on a fresh hook with a failing store, as a caller
   * of the two steps sees it: the list is empty again but the selection
   * still names the temporary id.
   */
  method FailedCreateOnFreshHook(clock: nat, now: string) returns (selected: Option<string>, list: seq<Note>, saving: bool)
    ensures list == [] && selected == Some(TempId(clock)) && !saving
  {
    var hook := new NotesHook();
    var captured := hook.selectedNoteId;
    var optimistic, _ := hook.CreateApply(Str(UntitledTitle), Str(""), clock, now);
    assert hook.isSaving && hook.notes == [optimistic];
    hook.CreateSettle(optimistic.id, captured, Response(None, Some(Error("Boom"))));
    RemoveFreshHead(optimistic, []);
    selected, list, saving := hook.selectedNoteId, hook.notes, hook.isSaving;
  }
}
