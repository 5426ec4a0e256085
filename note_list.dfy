/**
 * The logic of the note list view: keyboard navigation over the list and
 * the per-item title, preview and loading indicator.
 */
module NoteList {
  import opened JsValues
  import opened Notes

  datatype Key = ArrowDown | ArrowUp | Enter | OtherKey

  /** What a key press does: the id passed to `onSelect`, if any, and whether the default is prevented. */
  datatype KeyResult = KeyResult(select: Option<string>, preventDefault: bool)

  const PreviewLength: nat := 120

  function Min(a: int, b: int): int { if a <= b then a else b }
  function Max(a: int, b: int): int { if a >= b then a else b }

  /** `notes.findIndex(n => n.id === selectedNoteId)`; no note matches a null selection. */
  function FindIndex(notes: seq<Note>, selected: Option<string>): (idx: int)
    ensures -1 <= idx < |notes|
    ensures idx == -1 <==> selected.None? || !HasId(notes, selected.value)
    ensures 0 <= idx ==> Some(notes[idx].id) == selected
    ensures 0 <= idx ==> forall j :: 0 <= j < idx ==> Some(notes[j].id) != selected
  {
    if selected.None? then -1 else FirstIndex(notes, selected.value)
  }

  /** The index a key press moves to in a non-empty list, or -1 when the key does nothing. */
  function KeyTarget(len: nat, idx: int, key: Key): (j: int)
    requires 0 < len && -1 <= idx < len
    ensures key.OtherKey? <==> j == -1
    ensures !key.OtherKey? ==> 0 <= j < len
  {
    match key
    case ArrowDown => Min(idx + 1, len - 1)
    case ArrowUp => Max(idx - 1, 0)
    case Enter => if idx >= 0 then idx else 0   // `notes[idx] || notes[0]`
    case OtherKey => -1
  }

  /** `handleKeyDown`. */
  function HandleKeyDown(notes: Option<seq<Note>>, selected: Option<string>, key: Key): (r: KeyResult)
    ensures notes.None? || |notes.value| == 0 ==> r == KeyResult(None, false)
    ensures r.select.Some? <==> notes.Some? && |notes.value| > 0 && !key.OtherKey?
    ensures r.preventDefault <==> notes.Some? && |notes.value| > 0 && (key.ArrowDown? || key.ArrowUp?)
    ensures r.select.Some? ==> exists i :: 0 <= i < |notes.value| && notes.value[i].id == r.select.value
  {
    if notes.None? || |notes.value| == 0 then KeyResult(None, false)
    else
      var ns := notes.value;
      var j := KeyTarget(|ns|, FindIndex(ns, selected), key);
      KeyResult(if j == -1 then None else Some(ns[j].id), key.ArrowDown? || key.ArrowUp?)
  }

  /** ArrowDown moves to the next note and stays on the last one at the end. */
  lemma ArrowDownMoves(ns: seq<Note>, i: nat)
    requires i < |ns|
    requires forall j :: 0 <= j < i ==> ns[j].id != ns[i].id
    ensures HandleKeyDown(Some(ns), Some(ns[i].id), ArrowDown).select
         == Some(if i + 1 < |ns| then ns[i + 1].id else ns[i].id)
  {
    assert HasId(ns, ns[i].id);
  }

  /** ArrowUp moves to the previous note and stays on the first one at the start. */
  lemma ArrowUpMoves(ns: seq<Note>, i: nat)
    requires i < |ns|
    requires forall j :: 0 <= j < i ==> ns[j].id != ns[i].id
    ensures HandleKeyDown(Some(ns), Some(ns[i].id), ArrowUp).select
         == Some(if i > 0 then ns[i - 1].id else ns[0].id)
  {
    assert HasId(ns, ns[i].id);
  }

  /** Enter re-selects the selected note when it is in the list. */
  lemma EnterKeepsSelection(ns: seq<Note>, k: string)
    requires HasId(ns, k)
    ensures HandleKeyDown(Some(ns), Some(k), Enter).select == Some(k)
  {
  }

  /** With a selection not in the list, ArrowDown, ArrowUp and Enter all pick the first note. */
  lemma UnknownSelectionPicksFirst(ns: seq<Note>, selected: Option<string>, key: Key)
    requires |ns| > 0 && !key.OtherKey?
    requires selected.None? || !HasId(ns, selected.value)
    ensures HandleKeyDown(Some(ns), selected, key).select == Some(ns[0].id)
  {
  }

  /** In a list with distinct ids, ArrowDown then ArrowUp comes back, except from the last note. */
  lemma DownThenUpReturns(ns: seq<Note>, i: nat)
    requires i + 1 < |ns|
    requires forall a, b :: 0 <= a < b < |ns| ==> ns[a].id != ns[b].id
    ensures var down := HandleKeyDown(Some(ns), Some(ns[i].id), ArrowDown).select;
            down.Some? && HandleKeyDown(Some(ns), down, ArrowUp).select == Some(ns[i].id)
  {
    ArrowDownMoves(ns, i);
    ArrowUpMoves(ns, i + 1);
  }

  /** The title shown for a note: its title when truthy, `'Untitled'` otherwise; never empty. */
  function DisplayTitle(note: Note): (t: string)
    ensures t != ""
    ensures Truthy(note.title) ==> t == note.title.s
    ensures !Truthy(note.title) ==> t == UntitledTitle
  {
    Or(note.title, UntitledTitle)
  }

  /** `(note.content || '').slice(0, 120)`. */
  function Preview(note: Note): (p: string)
    ensures var text := Or(note.content, "");
      && |p| == Min(|text|, PreviewLength)
      && p == text[..|p|]
  {
    var text := Or(note.content, "");
    if |text| <= PreviewLength then text else text[..PreviewLength]
  }

  /** The loading indicator shows while loading and only when there is nothing to list. */
  function ShowLoading(isLoading: bool, notes: Option<seq<Note>>): (b: bool)
    ensures b <==> isLoading && (notes.None? || |notes.value| == 0)
  {
    isLoading && (notes.None? || |notes.value| == 0)
  }
}
