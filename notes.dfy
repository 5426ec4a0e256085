/**
 * The note entity, the `{data, error}` result shape and the list operations
 * the state controller applies to its notes: `find`, `findIndex`, `filter`
 * by id and `map` that replaces by id.
 */
module Notes {
  import opened JsValues

  /** One note row; `title` and `content` may be cleared to `null` by an update. */
  datatype Note = Note(id: string, title: Value, content: Value, createdAt: string, updatedAt: string)

  /** What a list call may carry in `data`: an array of notes or something else. */
  datatype ListData = Rows(rows: seq<Note>) | NotArray

  /** The `{data, error}` pair every service call resolves to. */
  datatype Response<T> = Response(data: Option<T>, error: Option<Error>)

  /** The title shown and stored for a note whose title is falsy. */
  const UntitledTitle: string := "Untitled"

  predicate HasId(s: seq<Note>, k: string) {
    exists i :: 0 <= i < |s| && s[i].id == k
  }

  /** `s.findIndex(n => n.id === k)`: the first index holding id `k`, or -1. */
  function FirstIndex(s: seq<Note>, k: string): (i: int)
    ensures -1 <= i < |s|
    ensures i == -1 <==> !HasId(s, k)
    ensures 0 <= i ==> s[i].id == k && forall j :: 0 <= j < i ==> s[j].id != k
  {
    if s == [] then -1
    else if s[0].id == k then 0
    else
      var i := FirstIndex(s[1..], k);
      assert forall j :: 0 < j < |s| ==> s[j] == s[1..][j - 1];
      if i == -1 then -1 else i + 1
  }

  /** `s.find(n => n.id === k)`: the first note with id `k`, if any. */
  function FindById(s: seq<Note>, k: string): (r: Option<Note>)
    ensures r.None? <==> !HasId(s, k)
    ensures r.Some? ==> r.value.id == k && exists i :: 0 <= i < |s| && s[i] == r.value && forall j :: 0 <= j < i ==> s[j].id != k
  {
    var i := FirstIndex(s, k);
    if i == -1 then None else Some(s[i])
  }

  /** How many notes in `s` carry id `k`. */
  function CountId(s: seq<Note>, k: string): (c: nat)
    ensures c <= |s|
    ensures c == 0 <==> !HasId(s, k)
  {
    if s == [] then 0
    else
      assert forall j :: 0 < j < |s| ==> s[j] == s[1..][j - 1];
      (if s[0].id == k then 1 else 0) + CountId(s[1..], k)
  }

  /** `s.filter(n => n.id !== k)`. */
  function RemoveById(s: seq<Note>, k: string): (r: seq<Note>)
    ensures |r| == |s| - CountId(s, k)
    ensures !HasId(r, k)
  {
    if s == [] then []
    else if s[0].id == k then RemoveById(s[1..], k)
    else [s[0]] + RemoveById(s[1..], k)
  }

  /** `s.map(n => n.id === k ? v : n)`. */
  function ReplaceById(s: seq<Note>, k: string, v: Note): (r: seq<Note>)
    ensures |r| == |s|
    ensures forall i :: 0 <= i < |s| && s[i].id == k ==> r[i] == v
    ensures forall i :: 0 <= i < |s| && s[i].id != k ==> r[i] == s[i]
  {
    if s == [] then []
    else [if s[0].id == k then v else s[0]] + ReplaceById(s[1..], k, v)
  }

  /** Filtering keeps exactly the notes whose id differs from `k`. */
  lemma {:induction false} RemoveByIdMembers(s: seq<Note>, k: string, n: Note)
    ensures n in RemoveById(s, k) <==> n in s && n.id != k
  {
    if s != [] {
      RemoveByIdMembers(s[1..], k, n);
      assert s == [s[0]] + s[1..];
    }
  }

  /** Filtering distributes over concatenation, so it keeps relative order. */
  lemma {:induction false} RemoveByIdAppend(a: seq<Note>, b: seq<Note>, k: string)
    ensures RemoveById(a + b, k) == RemoveById(a, k) + RemoveById(b, k)
  {
    if a == [] {
      assert a + b == b;
    } else {
      var ab := a + b;
      assert ab[0] == a[0] && ab[1..] == a[1..] + b;
      RemoveByIdAppend(a[1..], b, k);
      if a[0].id == k {
        assert RemoveById(ab, k) == RemoveById(ab[1..], k);
      } else {
        assert RemoveById(ab, k) == [a[0]] + RemoveById(ab[1..], k);
      }
    }
  }

  /** Filtering out an id no note carries leaves the list as it was. */
  lemma {:induction false} RemoveByIdAbsent(s: seq<Note>, k: string)
    requires !HasId(s, k)
    ensures RemoveById(s, k) == s
  {
    if s != [] {
      assert s[0].id != k;
      assert !HasId(s[1..], k) by {
        forall j | 0 <= j < |s[1..]| ensures s[1..][j].id != k {
          assert s[1..][j] == s[j + 1];
        }
      }
      RemoveByIdAbsent(s[1..], k);
      assert s == [s[0]] + s[1..];
    }
  }

  /** Removing an id from a list that starts with it drops just that head when the rest lacks it. */
  lemma RemoveFreshHead(x: Note, s: seq<Note>)
    requires !HasId(s, x.id)
    ensures RemoveById([x] + s, x.id) == s
  {
    assert ([x] + s)[1..] == s;
    RemoveByIdAbsent(s, x.id);
  }

  /** Replacing twice by the same id, when the first value keeps the id, equals the second replacement alone. */
  lemma ReplaceByIdTwice(s: seq<Note>, k: string, v: Note, w: Note)
    requires v.id == k
    ensures ReplaceById(ReplaceById(s, k, v), k, w) == ReplaceById(s, k, w)
  {
  }

  /** Replacing by id with the very note every such entry already is changes nothing. */
  lemma ReplaceByIdSame(s: seq<Note>, k: string, p: Note)
    requires forall i :: 0 <= i < |s| && s[i].id == k ==> s[i] == p
    ensures ReplaceById(s, k, p) == s
  {
  }

  /** With at most one note per id, the note found by id is the only one carrying it. */
  lemma {:induction false} FoundIsOnly(s: seq<Note>, k: string)
    requires CountId(s, k) <= 1
    requires FindById(s, k).Some?
    ensures forall i :: 0 <= i < |s| && s[i].id == k ==> s[i] == FindById(s, k).value
  {
    var i0 := FirstIndex(s, k);
    forall i | 0 <= i < |s| && s[i].id == k ensures s[i] == s[i0] {
      if i != i0 {
        CountTwo(s, k, i0, i);
      }
    }
  }

  /** Two distinct positions carrying id `k` make its count at least two. */
  lemma {:induction false} CountTwo(s: seq<Note>, k: string, i: int, j: int)
    requires 0 <= i < |s| && 0 <= j < |s| && i != j
    requires s[i].id == k && s[j].id == k
    ensures CountId(s, k) >= 2
  {
    if i == 0 || j == 0 {
      var o := if i == 0 then j else i;
      assert s[1..][o - 1].id == k;
      assert HasId(s[1..], k);
    } else {
      CountTwo(s[1..], k, i - 1, j - 1);
    }
  }
}
