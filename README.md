# Notes client: optimistic state controller, list navigation and service guards

A Dafny model of the core of a single-page notes client. The client keeps a
local, optimistically updated copy of a remote `notes` table and talks to it
through a thin service layer that returns `{data, error}` pairs.

Modelled parts:

- **The state controller hook** (`notes_frontend/src/hooks/useNotes.js`).
  Its state is an ordered list of notes, the selected id, `isLoading`,
  `isSaving`, the last `error` and the `pending` map from note id to the
  kind of in-flight operation.
  - `hook_state.dfy` (module `HookState`) holds that state as a value. Each
    step of each operation is a transition on it: `load`, `selectNote`, the
    derived `selectedNote`, and create, update and delete.
  - Each asynchronous operation is split at its `await` into an apply step
    (up to the service call) and a settle step (which receives the
    response).
  - What the callback captured from its render is an explicit parameter:
    the `notes` read by update and delete, and the `selectedNoteId` read by
    create and delete.
  - `use_notes.dfy` (module `UseNotes`) is the hook as a class. Its fields
    are the state cells, its methods write them in the source's order, and
    each method's postcondition ties the new state to the matching
    transition of the old one.
  - `hook_properties.dfy` (module `HookProperties`) proves what the
    controller promises: exact rollback, commit on success, falsy-id guards,
    pending entries cleared on every settle, and what a load leaves behind.
- **List operations** (`notes.dfy`, module `Notes`). These are the
  `find`/`findIndex` lookups, the `filter` that removes by id and the `map`
  that replaces by id. Each comes with its contract and lemmas on order,
  membership and exact restoration.
- **The service layer** (`notes_service.dfy`, module `NotesService`). It
  covers the falsy-argument guards, the inserted row, the `updates` payload
  and the `handle` normalisation. The store is abstract: a call either
  answers at once from a guard or issues a `Query`, and the store's raw
  reply is a parameter.
- **The list view's logic** (`note_list.dfy`, module `NoteList`). This is
  keyboard navigation with clamped indices, the title and preview
  fallbacks, and the loading-indicator condition.
- JavaScript values the code depends on (`js_values.dfy`, module
  `JsValues`): `undefined` versus `null` versus a string, truthiness, and
  `Error` messages.

The model follows the code as written, including these behaviours:

- A failed create compares the selection captured at render time with the
  temporary id (`useNotes.js:73`), although that id is created inside the
  same call (`useNotes.js:62`). The rollback comment at `useNotes.js:71`
  and the comparison aim at removing the temporary note and its selection.
  See Findings.
- `updateNote` with an id that is not in the captured list clears `error`
  and ends with `isSaving` false (`useNotes.js:93-98`). It is not a complete
  no-op.
- A successful create filters the temporary id out of the current list and
  puts the stored note in front (`useNotes.js:80-83`).
- `isSaving` is a single flag. Any settle step, and an update of a missing
  id, sets it to false even while other operations are still pending. The
  model keeps this behaviour.

## Model

| member | source | states |
|---|---|---|
| Notes.FirstIndex | notes_frontend/src/components/NoteList.js:24 | -1 exactly when no note has the id; otherwise the first index holding it |
| Notes.FindById | notes_frontend/src/hooks/useNotes.js:95 | none exactly when no note has the id; otherwise a note with that id, at the first such position |
| Notes.RemoveById | notes_frontend/src/hooks/useNotes.js:72 | the result has no note with the id; its length is the original length minus the number of such notes |
| Notes.ReplaceById | notes_frontend/src/hooks/useNotes.js:105 | length is kept; entries with the id become the new note; all others are unchanged at their index |
| Notes.RemoveByIdMembers | notes_frontend/src/hooks/useNotes.js:72 | a note survives the filter iff it was in the list and has a different id |
| Notes.RemoveByIdAppend | notes_frontend/src/hooks/useNotes.js:81-82 | filtering distributes over concatenation, so relative order is kept |
| Notes.RemoveByIdAbsent | notes_frontend/src/hooks/useNotes.js:72 | filtering out an id that no note carries returns the list unchanged |
| Notes.RemoveFreshHead | notes_frontend/src/hooks/useNotes.js:65-72 | removing the id of a prepended note whose id is fresh gives back the original list |
| Notes.ReplaceByIdTwice | notes_frontend/src/hooks/useNotes.js:105-117 | replacing by id with a note that keeps the id, then replacing again, equals the second replacement alone |
| Notes.ReplaceByIdSame | notes_frontend/src/hooks/useNotes.js:111 | replacing by id with the note every such entry already equals changes nothing |
| Notes.FoundIsOnly | notes_frontend/src/hooks/useNotes.js:95 | with at most one note per id, the found note is the only entry with that id |
| NotesService.Handle | notes_frontend/src/services/notesService.js:28-36 | an error is kept with its message and the data dropped; without an error the data passes through and the error is null |
| NotesService.ResponseIsExclusive | notes_frontend/src/services/notesService.js:28-36 | no normalised response carries both data and an error; a call refused by a guard resolves the same whatever the store would reply |
| NotesService.GetNoteById | notes_frontend/src/services/notesService.js:53-72 | refused with `id is required` and no store call iff the id is falsy; otherwise the lookup query for that id |
| NotesService.InsertRow | notes_frontend/src/services/notesService.js:82-86 | title kept, content defaults to the empty string, created and updated timestamps are the same value |
| NotesService.CreateNote | notes_frontend/src/services/notesService.js:75-90 | refused with `title is required` and no store call iff the title is falsy; otherwise inserts the row |
| NotesService.UpdatePayload | notes_frontend/src/services/notesService.js:101-103 | `updated_at` always; title and content present exactly when not undefined, with their values (empty strings included) |
| NotesService.UpdateNote | notes_frontend/src/services/notesService.js:93-113 | refused with `id is required` and no store call iff the id is falsy; otherwise updates with the payload |
| NotesService.DeleteNote | notes_frontend/src/services/notesService.js:116-131 | refused with `id is required` and no store call iff the id is falsy; otherwise deletes that id |
| HookState.FailureMessage | notes_frontend/src/hooks/useNotes.js:74 | the error's message when present and non-empty, otherwise the fallback; never empty for a non-empty fallback |
| HookState.LoadMessage | notes_frontend/src/hooks/useNotes.js:29 | the error's message when non-empty, otherwise the error's string form; never empty |
| HookState.LoadedNotes | notes_frontend/src/hooks/useNotes.js:31 | the returned data when it is an array, `[]` in every other case |
| HookState.TempId | notes_frontend/src/hooks/useNotes.js:62 | temporary ids start with `temp-` |
| HookState.DecimalRoundTrip | notes_frontend/src/hooks/useNotes.js:62 | the decimal rendering of the clock reading parses back to that reading |
| HookState.TempIdInjective | notes_frontend/src/hooks/useNotes.js:62 | equal temporary ids come from equal clock readings |
| HookState.SelectedNote | notes_frontend/src/hooks/useNotes.js:40-43 | null iff nothing is selected or no note has the selected id; otherwise the first note with that id |
| HookState.Provisional | notes_frontend/src/hooks/useNotes.js:62-64 | the provisional note has the temp id, a title defaulted to `Untitled` (never falsy), content defaulted to the empty string, and equal timestamps |
| HookState.Merge | notes_frontend/src/hooks/useNotes.js:100-103 | only defined title and content overwrite; id and creation time are kept; `updated_at` is refreshed |
| HookState.UpdateBegin | notes_frontend/src/hooks/useNotes.js:92-103 | skipped iff the id is falsy; missing iff the id is not in the captured list; otherwise started with the found note and its merge |
| HookProperties.SelectNoteStoresIdOrNull | notes_frontend/src/hooks/useNotes.js:46-49 | a truthy id is stored as given and any falsy id as null; nothing else changes |
| HookProperties.LoadThroughService | notes_frontend/src/services/notesService.js:39-50 | a list query the store answers with an error leaves no data, an empty list and the store's message as the error; rows without an error become the list with no error |
| HookProperties.LoadReplacesList | notes_frontend/src/hooks/useNotes.js:22-33 | the list becomes the returned array (or `[]`); loading ends; the error is set iff the result carried one, with its message |
| HookProperties.LoadingIndicatorFollowsLoad | notes_frontend/src/App.test.js:34-41 | the indicator shows for the initial state and never after a load finished |
| HookProperties.CreateApplyPrepends | notes_frontend/src/hooks/useNotes.js:60-67 | one provisional note is prepended and the rest kept in order; the temp id is selected and pending as a create; saving with no error |
| HookProperties.CreateFailureDropsTemp | notes_frontend/src/hooks/useNotes.js:70-77 | after any interleaving, a failed settle keeps exactly the notes without the temp id; selection is cleared only if the captured one was the temp id; error set; pending cleared; not saving |
| HookProperties.CreateFailureRollsBack | notes_frontend/src/hooks/useNotes.js:58-77 | run back to back, a failed create restores the list (for a fresh temp id) and clears pending and saving; the selection stays on the temp id unless captured as it |
| HookProperties.CreateSuccessCommits | notes_frontend/src/hooks/useNotes.js:58-86 | run back to back, a successful create gives the stored note followed by the previous list, with that id exactly once, selected; pending cleared |
| HookProperties.UpdateGuards | notes_frontend/src/hooks/useNotes.js:92-99 | a falsy id changes nothing; an id missing from the captured list only clears the error and leaves saving false |
| HookProperties.UpdateApplyReplaces | notes_frontend/src/hooks/useNotes.js:100-106 | length and order are kept; only entries with the id change, to the merged note; pending as an update |
| HookProperties.UpdateFailureRollsBack | notes_frontend/src/hooks/useNotes.js:108-115 | a failed update reverts the entries with the id; the list is exactly restored when the id is unique; error defaulted; pending cleared |
| HookProperties.UpdateSuccessCommits | notes_frontend/src/hooks/useNotes.js:117-119 | a successful update puts the stored note at every entry with the id and keeps the others; pending cleared |
| HookProperties.DeleteGuard | notes_frontend/src/hooks/useNotes.js:125 | a falsy id changes nothing |
| HookProperties.DeleteApplyRemoves | notes_frontend/src/hooks/useNotes.js:126-131 | exactly the notes without the id remain; the selection is cleared iff the captured selection is the id; pending as a delete |
| HookProperties.DeleteFailureRestores | notes_frontend/src/hooks/useNotes.js:133-140 | a failed delete restores the captured list exactly; a cleared selection stays cleared; error defaulted; pending cleared |
| HookProperties.DeleteSuccessKeepsRemoval | notes_frontend/src/hooks/useNotes.js:142-143 | a successful delete leaves exactly the state after the apply step, with only the pending entry and the saving flag cleared: the id stays absent and the error null |
| HookProperties.DanglingSelectionAfterFailedCreate | notes_frontend/src/hooks/useNotes.js:73 | from the initial state, a failed create leaves the temp id selected with an empty list, so nothing resolves as selected |
| HookProperties.CorrectedCreateClearsSelection | notes_frontend/src/hooks/useNotes.js:70-77 | with the rollback comparing the current selection, a failed create leaves nothing selected and restores the list |
| HookProperties.CreateRequestPassesGuard | notes_frontend/src/hooks/useNotes.js:69 | the create request the hook sends always passes the service's title guard |
| HookProperties.UpdateRequestPassesGuard | notes_frontend/src/hooks/useNotes.js:108 | the update request the hook sends always passes the service's id guard |
| UseNotes.NotesHook.constructor | notes_frontend/src/hooks/useNotes.js:15-20 | empty list, nothing selected, loading, not saving, no error, no pending entries |
| UseNotes.NotesHook.SelectedNote | notes_frontend/src/hooks/useNotes.js:40-43 | a returned note is in the list and carries the selected id; null iff no note has it |
| UseNotes.NotesHook.SelectNote | notes_frontend/src/hooks/useNotes.js:46-49 | the new state is the select transition of the old one |
| UseNotes.NotesHook.LoadStart | notes_frontend/src/hooks/useNotes.js:23-26 | the new state is the load-start transition: loading, error cleared |
| UseNotes.NotesHook.LoadFinish | notes_frontend/src/hooks/useNotes.js:27-32 | the new state is the load-finish transition of the old one for the response |
| UseNotes.NotesHook.CreateApply | notes_frontend/src/hooks/useNotes.js:60-69 | returns the provisional note and the request it sends; the new state is the create-apply transition |
| UseNotes.NotesHook.CreateSettle | notes_frontend/src/hooks/useNotes.js:69-86 | the new state is the create-settle transition for the captured selection and the response |
| UseNotes.NotesHook.CreateSettleCorrected | notes_frontend/src/hooks/useNotes.js:69-86 | the new state is the corrected create-settle transition |
| UseNotes.NotesHook.UpdateApply | notes_frontend/src/hooks/useNotes.js:92-106 | returns the update decision for the captured list; the new state is the update-apply transition |
| UseNotes.NotesHook.UpdateSettle | notes_frontend/src/hooks/useNotes.js:108-119 | the new state is the update-settle transition for the response |
| UseNotes.NotesHook.DeleteApply | notes_frontend/src/hooks/useNotes.js:125-131 | returns the id awaiting its settle step (none for a falsy id); the new state is the delete-apply transition |
| UseNotes.NotesHook.DeleteSettle | notes_frontend/src/hooks/useNotes.js:133-143 | the new state is the delete-settle transition for the captured list and the response |
| UseNotes.FailedCreateOnFreshHook | notes_frontend/src/hooks/useNotes.js:58-77 | driving the class through a failing create from a fresh hook ends with an empty list, not saving, and the temp id still selected |
| NoteList.FindIndex | notes_frontend/src/components/NoteList.js:24 | -1 iff nothing is selected or no note has the id; otherwise the first index carrying it |
| NoteList.KeyTarget | notes_frontend/src/components/NoteList.js:25-36 | every navigation key lands on an index in `[0, len)`; other keys land nowhere |
| NoteList.HandleKeyDown | notes_frontend/src/components/NoteList.js:21-39 | an empty or missing list selects nothing; a select happens iff the key is one of the three; default prevented only for the arrows; a selected id belongs to a note in the list |
| NoteList.ArrowDownMoves | notes_frontend/src/components/NoteList.js:25-28 | ArrowDown selects the next note, and stays on the last note at the end |
| NoteList.ArrowUpMoves | notes_frontend/src/components/NoteList.js:29-32 | ArrowUp selects the previous note, and stays on the first note at the start |
| NoteList.EnterKeepsSelection | notes_frontend/src/components/NoteList.js:33-36 | Enter re-selects the selected id when it is in the list |
| NoteList.UnknownSelectionPicksFirst | notes_frontend/src/components/NoteList.js:24-36 | with the selection not in the list, all three keys select the first note |
| NoteList.DownThenUpReturns | notes_frontend/src/components/NoteList.js:25-32 | with distinct ids, ArrowDown then ArrowUp returns to the starting note unless it was the last |
| NoteList.DisplayTitle | notes_frontend/src/components/NoteList.js:84 | the title when truthy, `Untitled` otherwise; never empty |
| NoteList.Preview | notes_frontend/src/components/NoteList.js:85 | a prefix of the content (or of the empty string) of length `min(length, 120)` |
| NoteList.ShowLoading | notes_frontend/src/components/NoteList.js:64-66 | shown iff loading and the list is empty or missing |

## Findings

| source | as written | input that shows it | evidently intended | confidence | as-written member | corrected member |
|---|---|---|---|---|---|---|
| notes_frontend/src/hooks/useNotes.js:73 | the create rollback clears the selection only if the selection captured at render time equals the temporary id, and that id is only generated inside this call | fresh hook, nothing selected; create a note and the store answers with an error | clear the selection when the temporary note is still selected at rollback time | medium, not executed | HookProperties.DanglingSelectionAfterFailedCreate | HookProperties.CorrectedCreateClearsSelection |

The as-written transition `HookState.CreateSettled` and method
`UseNotes.NotesHook.CreateSettle` keep the source's behaviour. The
corrected `HookState.CreateSettledCorrected` and
`UseNotes.NotesHook.CreateSettleCorrected` compare the current selection.

## Left out

- React scheduling is not modelled: `useState`, `useCallback`, `useMemo`,
  `useEffect`, rendering and JSX. The automatic first `load` on mount is not
  a step of its own; the initial state already has `isLoading` true, and
  `LoadStart`/`LoadFinish` model any load. `refresh` is `load` itself.
- Concurrent interleaving of async operations is not simulated. Captured
  render-time values are parameters, and each settle step can run on any
  state.
- The Supabase client and query builder are abstract. This includes the
  newest-first ordering of the list query, `.single()`, `.select()` and
  `console.error`.
- The environment-variable check in the list view and its buttons are
  left out, as is the empty-state text.
- Clock values are parameters: `Date.now()` is a natural-number reading
  and ISO timestamps are strings. Nothing guarantees that temporary ids are
  fresh. Lemmas that need freshness take it as a hypothesis.
- Only strings, `null` and `undefined` are modelled as JavaScript values.
  Truthiness and `String(err)` for numbers, objects or non-`Error` throws
  are out of scope. Strings are sequences of characters, not UTF-16 code
  units.
- Create, update and delete responses are assumed to be objects. The
  exception from destructuring an `undefined` response is not modelled;
  only `load` guards that case.
- Notes have the five fields of the table. Extra fields that the spread
  copy would keep are not represented.
- These parts of the UI are presentational and not modelled: the per-item
  click and Enter handlers, the delete button and the `aria` attributes of
  the list view, the editor's debounce timers, and the top bar, sidebar and
  app shell.
