/**
 * What the notes controller promises, stated over its transitions: what
 * load leaves behind, the exact shape of each optimistic change, exact
 * rollback on failure, the commit on success, the falsy-id guards, and that
 * every settle clears its pending entry.
 */
module HookProperties {
  import opened JsValues
  import opened Notes
  import opened HookState
  import NotesService
  import NoteList

  /** `selectNote` stores a truthy id as given and null for any falsy one; nothing else changes. */
  lemma SelectNoteStoresIdOrNull(st: State, id: Value)
    ensures Select(st, id).selectedNoteId == (if Truthy(id) then Some(id.s) else None)
    ensures Select(st, id).(selectedNoteId := st.selectedNoteId) == st
  {
  }

  /** A load replaces the list whatever it held, ends not loading, and reports only the list call's error. */
  lemma LoadReplacesList(st: State, res: Option<Response<ListData>>)
    ensures var s := LoadFinished(LoadStarted(st), res);
      && s.notes == LoadedNotes(res)
      && !s.isLoading
      && (s.error.Some? <==> res.Some? && res.value.error.Some?)
      && (s.error.Some? ==> s.error.value == LoadMessage(res.value.error.value))
      && s.selectedNoteId == st.selectedNoteId && s.isSaving == st.isSaving && s.pending == st.pending
  {
  }

  /** A list response as `load` sees it: an array in `data` is a list of rows. */
  function AsListData(r: Response<seq<Note>>): Response<ListData> {
    Response(if r.data.Some? then Some(Rows(r.data.value)) else None, r.error)
  }

  /**
   * A load through the service: when the store answers the list query with
   * an error, the list ends empty and the error shows the store's message;
   * when it answers with rows and no error, the list is those rows and no
   * error is set.
   */
  lemma LoadThroughService(st: State, raw: NotesService.Raw<seq<Note>>)
    ensures var r := NotesService.Complete(NotesService.ListNotes(), raw);
            var s := LoadFinished(LoadStarted(st), Some(AsListData(r)));
      && (raw.error.Some? ==> r.data.None? && s.notes == [] && s.error == Some(LoadMessage(Error(raw.error.value.message))))
      && (raw.error.Some? && raw.error.value.message != "" ==> s.error == Some(raw.error.value.message))
      && (raw.error.None? && raw.data.Some? ==> s.notes == raw.data.value && s.error == None)
      && (raw.error.None? && raw.data.None? ==> s.notes == [] && s.error == None)
      && !s.isLoading
  {
  }

  /**
   * The list view shows its loading indicator for the initial state, and
   * never once a load has finished.
   */
  lemma LoadingIndicatorFollowsLoad(st: State, res: Option<Response<ListData>>)
    ensures NoteList.ShowLoading(Initial().isLoading, Some(Initial().notes))
    ensures var s := LoadFinished(LoadStarted(st), res); !NoteList.ShowLoading(s.isLoading, Some(s.notes))
  {
  }

  /** The create apply step prepends exactly one provisional note and selects it. */
  lemma CreateApplyPrepends(st: State, title: Value, content: Value, clock: nat, now: string)
    ensures var s := CreateApplied(st, title, content, clock, now);
      && |s.notes| == |st.notes| + 1
      && s.notes[0] == Provisional(title, content, clock, now)
      && s.notes[1..] == st.notes
      && s.selectedNoteId == Some(TempId(clock))
      && TempId(clock) in s.pending && s.pending[TempId(clock)] == CreateOp
      && s.pending - {TempId(clock)} == st.pending - {TempId(clock)}
      && s.isSaving && s.error == None && s.isLoading == st.isLoading
  {
    var s := CreateApplied(st, title, content, clock, now);
    assert s.notes[1..] == st.notes;
  }

  /**
   * Whatever happened meanwhile, a failed create settle drops every note
   * with the temporary id and keeps the others, and clears its pending entry.
   */
  lemma CreateFailureDropsTemp(st: State, tempId: string, captured: Option<string>, res: Response<Note>, n: Note)
    requires Failed(res)
    ensures var s := CreateSettled(st, tempId, captured, res);
      && (n in s.notes <==> n in st.notes && n.id != tempId)
      && |s.notes| == |st.notes| - CountId(st.notes, tempId)
      && !HasId(s.notes, tempId)
      && s.selectedNoteId == (if captured == Some(tempId) then None else st.selectedNoteId)
      && s.error == Some(FailureMessage(res.error, CreateFailed))
      && tempId !in s.pending && s.pending == st.pending - {tempId}
      && !s.isSaving
  {
    RemoveByIdMembers(st.notes, tempId, n);
  }

  /**
   * A create that fails with nothing in between restores the list when the
   * temporary id was fresh; the selection is cleared only if the captured
   * selection already was the temporary id, and otherwise stays on it.
   */
  lemma CreateFailureRollsBack(st: State, title: Value, content: Value, clock: nat, now: string,
                               captured: Option<string>, res: Response<Note>)
    requires Failed(res)
    ensures var t := TempId(clock);
            var s := CreateSettled(CreateApplied(st, title, content, clock, now), t, captured, res);
      && (!HasId(st.notes, t) ==> s.notes == st.notes)
      && !HasId(s.notes, t)
      && s.selectedNoteId == (if captured == Some(t) then None else Some(t))
      && s.error == Some(FailureMessage(res.error, CreateFailed))
      && s.pending == st.pending - {t}
      && !s.isSaving
  {
    var p := Provisional(title, content, clock, now);
    var t := TempId(clock);
    assert st.pending[t := CreateOp] - {t} == st.pending - {t};
    if !HasId(st.notes, t) {
      RemoveFreshHead(p, st.notes);
    }
  }

  /**
   * A create that succeeds with nothing in between puts the stored note at
   * the front of the previous list, once, and selects it.
   */
  lemma CreateSuccessCommits(st: State, title: Value, content: Value, clock: nat, now: string,
                             captured: Option<string>, res: Response<Note>)
    requires !Failed(res)
    ensures var t := TempId(clock);
            var s := CreateSettled(CreateApplied(st, title, content, clock, now), t, captured, res);
      && s.notes[0] == res.data.value
      && (!HasId(st.notes, t) ==> s.notes == [res.data.value] + st.notes)
      && (!HasId(st.notes, t) && !HasId(st.notes, res.data.value.id) ==> CountId(s.notes, res.data.value.id) == 1)
      && s.selectedNoteId == Some(res.data.value.id)
      && s.error == None
      && s.pending == st.pending - {t}
      && !s.isSaving
  {
    var p := Provisional(title, content, clock, now);
    var t := TempId(clock);
    var d := res.data.value;
    assert st.pending[t := CreateOp] - {t} == st.pending - {t};
    if !HasId(st.notes, t) {
      RemoveFreshHead(p, st.notes);
      var s := [d] + st.notes;
      assert s[1..] == st.notes;
      if !HasId(st.notes, d.id) {
        assert CountId(st.notes, d.id) == 0;
      }
    }
  }

  /** A falsy id makes `updateNote` a no-op; an id missing from the captured list only clears the error. */
  lemma UpdateGuards(st: State, id: Value, title: Value, content: Value, captured: seq<Note>, now: string)
    ensures !Truthy(id) ==> UpdateApplied(st, UpdateBegin(id, title, content, captured, now)) == st
    ensures Truthy(id) && !HasId(captured, id.s) ==>
      UpdateApplied(st, UpdateBegin(id, title, content, captured, now)) == st.(error := None, isSaving := false)
  {
  }

  /**
   * The update apply step keeps the list's length and order and changes
   * only the entries with that id, to the merged note.
   */
  lemma UpdateApplyReplaces(st: State, id: Value, title: Value, content: Value, captured: seq<Note>, now: string)
    requires UpdateBegin(id, title, content, captured, now).Started?
    ensures var start := UpdateBegin(id, title, content, captured, now);
            var s := UpdateApplied(st, start);
      && |s.notes| == |st.notes|
      && (forall i :: 0 <= i < |st.notes| && st.notes[i].id != id.s ==> s.notes[i] == st.notes[i])
      && (forall i :: 0 <= i < |st.notes| && st.notes[i].id == id.s ==> s.notes[i] == start.next)
      && start.next.id == id.s
      && s.pending == st.pending[id.s := UpdateOp]
      && s.isSaving && s.error == None && s.selectedNoteId == st.selectedNoteId
  {
  }

  /**
   * An update that fails with nothing in between reverts the entries with
   * that id to the note found before the call; with one such entry the list
   * is exactly as before.
   */
  lemma UpdateFailureRollsBack(st: State, id: Value, title: Value, content: Value, now: string, res: Response<Note>)
    requires UpdateBegin(id, title, content, st.notes, now).Started?
    requires Failed(res)
    ensures var start := UpdateBegin(id, title, content, st.notes, now);
            var s := UpdateSettled(UpdateApplied(st, start), id.s, start.prev, res);
      && (CountId(st.notes, id.s) <= 1 ==> s.notes == st.notes)
      && |s.notes| == |st.notes|
      && (forall i :: 0 <= i < |st.notes| && st.notes[i].id != id.s ==> s.notes[i] == st.notes[i])
      && s.error == Some(FailureMessage(res.error, UpdateFailed))
      && s.pending == st.pending - {id.s}
      && !s.isSaving
  {
    var start := UpdateBegin(id, title, content, st.notes, now);
    var k := id.s;
    assert st.pending[k := UpdateOp] - {k} == st.pending - {k};
    ReplaceByIdTwice(st.notes, k, start.next, start.prev);
    if CountId(st.notes, k) <= 1 {
      FoundIsOnly(st.notes, k);
      ReplaceByIdSame(st.notes, k, start.prev);
    }
  }

  /** An update that succeeds with nothing in between leaves the stored note at every entry with that id. */
  lemma UpdateSuccessCommits(st: State, id: Value, title: Value, content: Value, now: string, res: Response<Note>)
    requires UpdateBegin(id, title, content, st.notes, now).Started?
    requires !Failed(res)
    ensures var start := UpdateBegin(id, title, content, st.notes, now);
            var s := UpdateSettled(UpdateApplied(st, start), id.s, start.prev, res);
      && |s.notes| == |st.notes|
      && (forall i :: 0 <= i < |st.notes| && st.notes[i].id != id.s ==> s.notes[i] == st.notes[i])
      && (forall i :: 0 <= i < |st.notes| && st.notes[i].id == id.s ==> s.notes[i] == res.data.value)
      && s.error == None
      && s.pending == st.pending - {id.s}
      && !s.isSaving
  {
    var start := UpdateBegin(id, title, content, st.notes, now);
    assert st.pending[id.s := UpdateOp] - {id.s} == st.pending - {id.s};
    ReplaceByIdTwice(st.notes, id.s, start.next, res.data.value);
  }

  /** A falsy id makes `deleteNote` a no-op. */
  lemma DeleteGuard(st: State, id: Value, captured: Option<string>)
    requires !Truthy(id)
    ensures DeleteApplied(st, id, captured) == st
  {
  }

  /**
   * The delete apply step drops every note with the id and keeps the rest,
   * and clears the selection exactly when the captured selection is that id.
   */
  lemma DeleteApplyRemoves(st: State, id: Value, captured: Option<string>, n: Note)
    requires Truthy(id)
    ensures var s := DeleteApplied(st, id, captured);
      && (n in s.notes <==> n in st.notes && n.id != id.s)
      && !HasId(s.notes, id.s)
      && (captured == Some(id.s) ==> s.selectedNoteId == None)
      && (captured != Some(id.s) ==> s.selectedNoteId == st.selectedNoteId)
      && id.s in s.pending && s.pending[id.s] == DeleteOp
      && s.isSaving && s.error == None
  {
    RemoveByIdMembers(st.notes, id.s, n);
  }

  /**
   * A delete that fails with nothing in between restores the list exactly,
   * while a cleared selection stays cleared.
   */
  lemma DeleteFailureRestores(st: State, id: Value, res: Response<seq<string>>)
    requires Truthy(id) && res.error.Some?
    ensures var s := DeleteSettled(DeleteApplied(st, id, st.selectedNoteId), id.s, st.notes, res);
      && s.notes == st.notes
      && s.selectedNoteId == (if st.selectedNoteId == Some(id.s) then None else st.selectedNoteId)
      && s.error == Some(FailureMessage(res.error, DeleteFailed))
      && s.pending == st.pending - {id.s}
      && !s.isSaving
  {
    assert st.pending[id.s := DeleteOp] - {id.s} == st.pending - {id.s};
  }

  /** A delete that succeeds keeps the removal and only clears its bookkeeping. */
  lemma DeleteSuccessKeepsRemoval(st: State, id: Value, res: Response<seq<string>>)
    requires Truthy(id) && res.error.None?
    ensures var s := DeleteSettled(DeleteApplied(st, id, st.selectedNoteId), id.s, st.notes, res);
      && !HasId(s.notes, id.s)
      && |s.notes| == |st.notes| - CountId(st.notes, id.s)
      && s.error == None
      && s.pending == st.pending - {id.s}
      && !s.isSaving
    ensures var a := DeleteApplied(st, id, st.selectedNoteId);
      DeleteSettled(a, id.s, st.notes, res) == a.(pending := st.pending - {id.s}, isSaving := false)
  {
    assert st.pending[id.s := DeleteOp] - {id.s} == st.pending - {id.s};
  }

  /**
   * From the initial state, a create that fails leaves the selection on the
   * temporary id although no note carries it any more.
   */
  lemma DanglingSelectionAfterFailedCreate(clock: nat, now: string, err: Error)
    ensures var s := CreateSettled(CreateApplied(Initial(), Str(UntitledTitle), Str(""), clock, now),
                                   TempId(clock), None, Response(None, Some(err)));
      && s.notes == []
      && s.selectedNoteId == Some(TempId(clock))
      && SelectedNote(s) == None
  {
    RemoveFreshHead(Provisional(Str(UntitledTitle), Str(""), clock, now), []);
  }

  /** The corrected rollback never leaves the temporary id selected. */
  lemma CorrectedCreateClearsSelection(st: State, title: Value, content: Value, clock: nat, now: string, res: Response<Note>)
    requires Failed(res)
    ensures var t := TempId(clock);
            var s := CreateSettledCorrected(CreateApplied(st, title, content, clock, now), t, res);
      && s.selectedNoteId == None
      && (!HasId(st.notes, t) ==> s.notes == st.notes)
      && s.pending == st.pending - {t}
      && !s.isSaving
  {
    var t := TempId(clock);
    assert st.pending[t := CreateOp] - {t} == st.pending - {t};
    if !HasId(st.notes, t) {
      RemoveFreshHead(Provisional(title, content, clock, now), st.notes);
    }
  }

  /** Every create request the controller sends passes the service's title guard. */
  lemma CreateRequestPassesGuard(title: Value, content: Value, clock: nat, now: string, serviceNow: string)
    ensures var p := Provisional(title, content, clock, now);
            NotesService.CreateNote(NotesService.NoteInput(p.title, p.content), serviceNow).Issue?
  {
  }

  /** Every update request the controller sends passes the service's id guard. */
  lemma UpdateRequestPassesGuard(id: Value, title: Value, content: Value, captured: seq<Note>, now: string, serviceNow: string)
    requires UpdateBegin(id, title, content, captured, now).Started?
    ensures var start := UpdateBegin(id, title, content, captured, now);
            NotesService.UpdateNote(Str(start.key), NotesService.NoteInput(start.next.title, start.next.content), serviceNow).Issue?
  {
  }
}
