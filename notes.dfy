/**
  The note store of the widget: the `Note` record, the editor form, the
  normalisation `onSaveNote` applies to the form, and the three changes it
  makes to the notes array (upsert on save, filter on delete, flip on toggle).
  Timestamps are integers passed in; the generated id is the `freshId` parameter.
 */
module Notes {
  import opened Seqs
  import opened Text

  datatype Option<T> = None | Some(value: T)

  /** A stored note; `due` is `null` (None) when no date was entered. */
  datatype Note = Note(
    id: string,
    title: string,
    body: string,
    due: Option<string>,
    priority: string,
    tags: seq<string>,
    completed: bool,
    updatedAt: int)

  /** The raw values of the editor's inputs when the form is submitted. */
  datatype NoteForm = NoteForm(id: string, title: string, body: string, due: string, priority: string, tags: string)

  /** The view filters; `tag` is `null` (None) when no tag is selected. */
  datatype Filters = Filters(showCompleted: bool, priority: string, tag: Option<string>, search: string, sort: string)

  const DefaultFilters := Filters(true, "all", None, "", "updated_desc")

  // ---------------------------------------------------------------------------
  // Normalisation of the editor form

  /** The trimmed title, or "Untitled" when nothing but whitespace was entered. */
  function NormalizeTitle(raw: string): (r: string)
    ensures r != [] && Trimmed(r)
    ensures Trim(raw) != [] ==> r == Trim(raw)
    ensures Trim(raw) == [] ==> r == "Untitled"
  {
    var t := Trim(raw);
    if t == [] then "Untitled" else t
  }

  function TrimAll(pieces: seq<string>): (r: seq<string>)
    ensures |r| == |pieces|
    ensures forall k :: 0 <= k < |r| ==> r[k] == Trim(pieces[k])
  {
    seq(|pieces|, k requires 0 <= k < |pieces| => Trim(pieces[k]))
  }

  function NonEmpty(): string -> bool
  {
    (t: string) => t != []
  }

  /** A tag as `onSaveNote` stores it: non-empty, trimmed, free of commas. */
  predicate IsTag(t: string)
  {
    t != [] && Trimmed(t) && ',' !in t
  }

  /** A comma-free piece that is not blank trims to a tag. */
  lemma TrimmedPieceIsTag(p: string)
    requires ',' !in p && Trim(p) != []
    ensures IsTag(Trim(p))
  {
    TrimChars(p, ',');
  }

  /**
    The tag input split on commas, each piece trimmed, empty pieces dropped:
    the stored tags are the non-empty trimmed pieces, in input order and
    with repeats kept.
   */
  function NormalizeTags(raw: string): (tags: seq<string>)
    ensures forall k :: 0 <= k < |tags| ==> IsTag(tags[k])
    ensures forall k :: 0 <= k < |tags| ==> tags[k] in TrimAll(Split(raw, ','))
    ensures forall j :: 0 <= j < |Split(raw, ',')| && Trim(Split(raw, ',')[j]) != [] ==> Trim(Split(raw, ',')[j]) in tags
    ensures IsSubsequence(tags, TrimAll(Split(raw, ',')))
    ensures forall t :: multiset(tags)[t] == if t != [] then multiset(TrimAll(Split(raw, ',')))[t] else 0
  {
    var pieces := Split(raw, ',');
    KeptPiecesAreTags(pieces);
    FilterIsSubsequence(TrimAll(pieces), NonEmpty());
    FilterMultiset(TrimAll(pieces), NonEmpty());
    Filter(TrimAll(pieces), NonEmpty())
  }

  /** Trimming comma-free pieces and dropping the empty ones keeps exactly the tags among them. */
  lemma KeptPiecesAreTags(pieces: seq<string>)
    requires forall k :: 0 <= k < |pieces| ==> ',' !in pieces[k]
    ensures var tags := Filter(TrimAll(pieces), NonEmpty());
      && (forall k :: 0 <= k < |tags| ==> IsTag(tags[k]))
      && (forall j :: 0 <= j < |pieces| && Trim(pieces[j]) != [] ==> Trim(pieces[j]) in tags)
  {
    var trimmed := TrimAll(pieces);
    var tags := Filter(trimmed, NonEmpty());
    FilterKeeps(trimmed, NonEmpty());
    forall k | 0 <= k < |tags| ensures IsTag(tags[k]) {
      var j :| 0 <= j < |trimmed| && trimmed[j] == tags[k];
      TrimmedPieceIsTag(pieces[j]);
    }
  }

  /** What `onSaveNote` builds from the form before looking the id up. */
  function BuildNote(form: NoteForm, freshId: string, now: int): (n: Note)
    requires freshId != []
    ensures n.id == (if form.id != [] then form.id else freshId)
    ensures n.title == NormalizeTitle(form.title) && n.body == Trim(form.body)
    ensures n.due == (if form.due == [] then None else Some(form.due))
    ensures n.priority == form.priority && n.tags == NormalizeTags(form.tags)
    ensures !n.completed && n.updatedAt == now
    ensures WellFormed(n)
  {
    Note(
      if form.id != [] then form.id else freshId,
      NormalizeTitle(form.title),
      Trim(form.body),
      if form.due == [] then None else Some(form.due),
      form.priority,
      NormalizeTags(form.tags),
      false,
      now)
  }

  /** What every note saved through the editor satisfies. */
  predicate WellFormed(n: Note)
  {
    && n.id != []
    && n.title != [] && Trimmed(n.title)
    && Trimmed(n.body)
    && (n.due.Some? ==> n.due.value != [])
    && forall k :: 0 <= k < |n.tags| ==> IsTag(n.tags[k])
  }

  predicate AllWellFormed(notes: seq<Note>)
  {
    forall k :: 0 <= k < |notes| ==> WellFormed(notes[k])
  }

  /** The form `openEditor(note)` fills in for an existing note. */
  function FormOf(n: Note): NoteForm
  {
    NoteForm(n.id, n.title, n.body, if n.due.Some? then n.due.value else [], n.priority, Join(n.tags, ", "))
  }

  function Spaced(ts: seq<string>): (r: seq<string>)
    ensures |r| == |ts|
    ensures forall k :: 0 <= k < |ts| ==> r[k] == " " + ts[k]
  {
    seq(|ts|, k requires 0 <= k < |ts| => " " + ts[k])
  }

  lemma {:induction false} SpacedJoin(ts: seq<string>)
    requires ts != []
    ensures " " + Join(ts, ", ") == Join(Spaced(ts), [','])
  {
    if |ts| > 1 {
      SpacedJoin(ts[1..]);
      assert Spaced(ts)[1..] == Spaced(ts[1..]);
      calc {
        " " + Join(ts, ", ");
        " " + (ts[0] + ", " + Join(ts[1..], ", "));
        (" " + ts[0]) + [','] + (" " + Join(ts[1..], ", "));
      }
    }
  }

  /** The pieces `Join(tags, ", ")` splits into at the commas. */
  function CommaPieces(tags: seq<string>): seq<string>
    requires tags != []
  {
    [tags[0]] + Spaced(tags[1..])
  }

  lemma JoinCommaSpace(tags: seq<string>)
    requires tags != []
    ensures Join(tags, ", ") == Join(CommaPieces(tags), [','])
  {
    if |tags| > 1 {
      SpacedJoin(tags[1..]);
      assert CommaPieces(tags)[1..] == Spaced(tags[1..]);
    }
  }

  lemma TrimCommaPieces(tags: seq<string>)
    requires tags != []
    requires forall k :: 0 <= k < |tags| ==> IsTag(tags[k])
    ensures forall k :: 0 <= k < |tags| ==> ',' !in CommaPieces(tags)[k]
    ensures TrimAll(CommaPieces(tags)) == tags
  {
    var pieces := CommaPieces(tags);
    forall k | 0 <= k < |pieces| ensures ',' !in pieces[k] && Trim(pieces[k]) == tags[k] {
      if k == 0 {
        TrimOfTrimmed(tags[0]);
      } else {
        assert pieces[k] == " " + tags[k];
        TrimLeadingSpace(tags[k]);
      }
    }
  }

  /** Re-saving the tags the editor shows (`tags.join(', ')`) gives the same tags. */
  lemma TagsRoundTrip(tags: seq<string>)
    requires forall k :: 0 <= k < |tags| ==> IsTag(tags[k])
    ensures NormalizeTags(Join(tags, ", ")) == tags
  {
    if tags == [] {
      assert Split([], ',') == [[]];
      assert TrimAll([[]]) == [[]];
    } else {
      var pieces := CommaPieces(tags);
      JoinCommaSpace(tags);
      TrimCommaPieces(tags);
      SplitJoin(pieces, ',');
      assert Split(Join(tags, ", "), ',') == pieces;
      FilterKeepsAll(tags, NonEmpty());
    }
  }

  /**
    Opening a well-formed note in the editor and submitting it unchanged
    builds the same note, not completed and stamped with the new time.
   */
  lemma EditRoundTrip(n: Note, freshId: string, now: int)
    requires WellFormed(n) && freshId != []
    ensures BuildNote(FormOf(n), freshId, now) == n.(completed := false, updatedAt := now)
  {
    TrimOfTrimmed(n.title);
    TrimOfTrimmed(n.body);
    TagsRoundTrip(n.tags);
  }

  // ---------------------------------------------------------------------------
  // The notes array

  /** `notes.findIndex(n => n.id === id)`: the first position holding `id`, or -1. */
  function FindIndex(notes: seq<Note>, id: string): (r: int)
    ensures -1 <= r < |notes|
    ensures r >= 0 ==> notes[r].id == id && forall k :: 0 <= k < r ==> notes[k].id != id
    ensures r < 0 ==> forall k :: 0 <= k < |notes| ==> notes[k].id != id
  {
    if notes == [] then -1
    else if notes[0].id == id then 0
    else
      var r := FindIndex(notes[1..], id);
      if r < 0 then -1 else r + 1
  }

  predicate HasId(notes: seq<Note>, id: string)
  {
    exists k :: 0 <= k < |notes| && notes[k].id == id
  }

  /** No two notes share an id. */
  predicate UniqueIds(notes: seq<Note>)
  {
    forall i, j :: 0 <= i < j < |notes| ==> notes[i].id != notes[j].id
  }

  /** The notes whose id is not `id`. */
  function OtherThan(id: string): Note -> bool
  {
    (n: Note) => n.id != id
  }

  /** Sequences with the same id at every position find an id at the same place. */
  lemma FindIndexSameIds(s: seq<Note>, t: seq<Note>, id: string)
    requires |s| == |t|
    requires forall k :: 0 <= k < |s| ==> s[k].id == t[k].id
    ensures FindIndex(s, id) == FindIndex(t, id)
  {
  }

  /**
    The store after saving `note`: a note with that id already present is
    replaced at its index, keeping its `completed` flag; otherwise `note` is
    prepended.
   */
  function Upsert(notes: seq<Note>, note: Note): (r: seq<Note>)
    ensures |r| == if HasId(notes, note.id) then |notes| else |notes| + 1
    ensures FindIndex(r, note.id) == if HasId(notes, note.id) then FindIndex(notes, note.id) else 0
    ensures HasId(notes, note.id) ==> r[FindIndex(notes, note.id)] == note.(completed := notes[FindIndex(notes, note.id)].completed)
    ensures !HasId(notes, note.id) ==> r[0] == note && r[1..] == notes
    ensures HasId(notes, note.id) ==> forall k :: 0 <= k < |notes| && k != FindIndex(notes, note.id) ==> r[k] == notes[k]
    ensures Filter(r, OtherThan(note.id)) == Filter(notes, OtherThan(note.id))
  {
    var idx := FindIndex(notes, note.id);
    if idx >= 0 then
      var saved := note.(completed := notes[idx].completed);
      var r := notes[idx := saved];
      FilterUpdateDropped(notes, idx, saved, OtherThan(note.id));
      FindIndexSameIds(r, notes, note.id);
      r
    else
      var r := [note] + notes;
      assert r[1..] == notes;
      r
  }

  /** Saving keeps ids unique. */
  lemma UpsertKeepsIdsUnique(notes: seq<Note>, note: Note)
    requires UniqueIds(notes)
    ensures UniqueIds(Upsert(notes, note))
  {
    var r := Upsert(notes, note);
    if HasId(notes, note.id) {
      var idx := FindIndex(notes, note.id);
      assert forall k :: 0 <= k < |r| ==> r[k].id == notes[k].id;
    } else {
      assert forall k :: 1 <= k < |r| ==> r[k] == notes[k - 1];
    }
  }

  /** Saving a well-formed note keeps every note well-formed. */
  lemma UpsertKeepsWellFormed(notes: seq<Note>, note: Note)
    requires AllWellFormed(notes) && WellFormed(note)
    ensures AllWellFormed(Upsert(notes, note))
  {
    var r := Upsert(notes, note);
    if !HasId(notes, note.id) {
      assert forall k :: 1 <= k < |r| ==> r[k] == notes[k - 1];
    }
  }

  /**
    Saving the unchanged editor form of a stored well-formed note only
    refreshes its `updatedAt`.
   */
  lemma SaveUnchangedNote(notes: seq<Note>, i: nat, freshId: string, now: int)
    requires UniqueIds(notes) && i < |notes| && WellFormed(notes[i]) && freshId != []
    ensures Upsert(notes, BuildNote(FormOf(notes[i]), freshId, now)) == notes[i := notes[i].(updatedAt := now)]
  {
    EditRoundTrip(notes[i], freshId, now);
    UpsertAt(notes, i, notes[i].(completed := false, updatedAt := now));
  }

  /** With unique ids, saving a note whose id sits at `i` rewrites position `i` only. */
  lemma UpsertAt(notes: seq<Note>, i: nat, note: Note)
    requires UniqueIds(notes) && i < |notes| && note.id == notes[i].id
    ensures Upsert(notes, note) == notes[i := note.(completed := notes[i].completed)]
  {
    assert FindIndex(notes, note.id) == i;
  }

  /**
    `onDeleteNote`: with no id in the form nothing happens; otherwise every
    note with that id is dropped and the others keep their order.
   */
  function Remove(notes: seq<Note>, id: string): (r: seq<Note>)
    ensures id == [] ==> r == notes
    ensures id != [] ==> !HasId(r, id)
    ensures id != [] ==> forall k :: 0 <= k < |notes| && notes[k].id != id ==> notes[k] in r
    ensures forall k :: 0 <= k < |r| ==> r[k] in notes
  {
    if id == [] then notes
    else
      FilterKeeps(notes, OtherThan(id));
      Filter(notes, OtherThan(id))
  }

  /** Deleting leaves a subsequence, with each kept note as often as before. */
  lemma RemoveIsSubsequence(notes: seq<Note>, id: string)
    requires id != []
    ensures IsSubsequence(Remove(notes, id), notes)
    ensures forall n :: multiset(Remove(notes, id))[n] == if n.id == id then 0 else multiset(notes)[n]
  {
    FilterIsSubsequence(notes, OtherThan(id));
    FilterMultiset(notes, OtherThan(id));
  }

  /** With unique ids, deleting a present id removes exactly that one note. */
  lemma RemoveUnique(notes: seq<Note>, id: string)
    requires UniqueIds(notes) && id != [] && HasId(notes, id)
    ensures var i := FindIndex(notes, id); Remove(notes, id) == notes[..i] + notes[i + 1..]
  {
    var i := FindIndex(notes, id);
    FilterDropsOne(notes, i, OtherThan(id));
  }

  /** Dropping notes keeps ids unique. */
  lemma {:induction false} FilterKeepsIdsUnique(notes: seq<Note>, p: Note -> bool)
    requires UniqueIds(notes)
    ensures UniqueIds(Filter(notes, p))
  {
    if notes != [] {
      FilterKeepsIdsUnique(notes[1..], p);
      var rest := Filter(notes[1..], p);
      forall k | 0 <= k < |rest| ensures rest[k].id != notes[0].id {
        var j :| 0 <= j < |notes[1..]| && notes[1..][j] == rest[k];
        assert notes[j + 1] == rest[k];
      }
    }
  }

  /**
    `toggleComplete`: a missing id changes nothing; otherwise only the first
    note with that id changes, its `completed` flipped and `updatedAt` set.
   */
  function Toggle(notes: seq<Note>, id: string, now: int): (r: seq<Note>)
    ensures |r| == |notes|
    ensures !HasId(notes, id) ==> r == notes
    ensures var i := FindIndex(notes, id);
      i >= 0 ==>
        && r[i].completed == !notes[i].completed && r[i].updatedAt == now
        && r[i].(completed := notes[i].completed, updatedAt := notes[i].updatedAt) == notes[i]
        && forall k :: 0 <= k < |notes| && k != i ==> r[k] == notes[k]
  {
    var i := FindIndex(notes, id);
    if i < 0 then notes
    else notes[i := notes[i].(completed := !notes[i].completed, updatedAt := now)]
  }

  /** Toggling twice restores every `completed` flag; only `updatedAt` moves on. */
  lemma ToggleTwice(notes: seq<Note>, id: string, t1: int, t2: int)
    ensures var r := Toggle(Toggle(notes, id, t1), id, t2);
      && |r| == |notes|
      && (forall k :: 0 <= k < |notes| ==> r[k].completed == notes[k].completed)
      && (HasId(notes, id) ==> r == notes[FindIndex(notes, id) := notes[FindIndex(notes, id)].(updatedAt := t2)])
  {
    var once := Toggle(notes, id, t1);
    FindIndexSameIds(once, notes, id);
  }

  /** Toggling keeps ids unique and notes well-formed. */
  lemma ToggleKeepsInvariants(notes: seq<Note>, id: string, now: int)
    ensures UniqueIds(notes) ==> UniqueIds(Toggle(notes, id, now))
    ensures AllWellFormed(notes) ==> AllWellFormed(Toggle(notes, id, now))
  {
    var r := Toggle(notes, id, now);
    assert forall k :: 0 <= k < |r| ==> r[k].id == notes[k].id;
  }

  // ---------------------------------------------------------------------------
  // The application state

  /** The `app` object: the notes array and the view filters. */
  class App {
    var notes: seq<Note>
    var filters: Filters

    /** `init`: the loaded notes and the default filters. */
    constructor (loaded: seq<Note>)
      ensures notes == loaded && filters == DefaultFilters
    {
      notes := loaded;
      filters := DefaultFilters;
    }

    /** `onSaveNote`: normalise the form, then replace or prepend. */
    method SaveNote(form: NoteForm, freshId: string, now: int)
      requires freshId != []
      modifies this
      ensures notes == Upsert(old(notes), BuildNote(form, freshId, now))
      ensures filters == old(filters)
      ensures UniqueIds(old(notes)) ==> UniqueIds(notes)
      ensures AllWellFormed(old(notes)) ==> AllWellFormed(notes)
    {
      var note := BuildNote(form, freshId, now);
      if UniqueIds(notes) {
        UpsertKeepsIdsUnique(notes, note);
      }
      if AllWellFormed(notes) {
        UpsertKeepsWellFormed(notes, note);
      }
      var idx := FindIndex(notes, note.id);
      if idx >= 0 {
        note := note.(completed := notes[idx].completed);
        notes := notes[idx := note];
      } else {
        notes := [note] + notes;
      }
    }

    /** `onDeleteNote`: drop the notes with the form's id, if it has one. */
    method DeleteNote(formId: string)
      modifies this
      ensures notes == Remove(old(notes), formId)
      ensures filters == old(filters)
      ensures UniqueIds(old(notes)) ==> UniqueIds(notes)
      ensures AllWellFormed(old(notes)) ==> AllWellFormed(notes)
    {
      if formId == [] {
        return;
      }
      if UniqueIds(notes) {
        FilterKeepsIdsUnique(notes, OtherThan(formId));
      }
      notes := Filter(notes, OtherThan(formId));
    }

    /** `toggleComplete`: flip one note's `completed` and stamp it. */
    method ToggleComplete(id: string, now: int)
      modifies this
      ensures notes == Toggle(old(notes), id, now)
      ensures filters == old(filters)
      ensures UniqueIds(old(notes)) ==> UniqueIds(notes)
      ensures AllWellFormed(old(notes)) ==> AllWellFormed(notes)
    {
      ToggleKeepsInvariants(notes, id, now);
      var idx := FindIndex(notes, id);
      if idx < 0 {
        return;
      }
      notes := notes[idx := notes[idx].(completed := !notes[idx].completed, updatedAt := now)];
    }

    /** The "show completed" checkbox. */
    method SetShowCompleted(checked: bool)
      modifies this
      ensures filters == old(filters).(showCompleted := checked) && notes == old(notes)
    {
      filters := filters.(showCompleted := checked);
    }

    /** A priority filter button. */
    method SetPriorityFilter(priority: string)
      modifies this
      ensures filters == old(filters).(priority := priority) && notes == old(notes)
    {
      filters := filters.(priority := priority);
    }

    /** The sort selector. */
    method SetSort(sort: string)
      modifies this
      ensures filters == old(filters).(sort := sort) && notes == old(notes)
    {
      filters := filters.(sort := sort);
    }

    /** Typing in the search box: the query is stored trimmed. */
    method SetSearch(input: string)
      modifies this
      ensures filters == old(filters).(search := Trim(input)) && notes == old(notes)
      ensures Trimmed(filters.search)
    {
      filters := filters.(search := Trim(input));
    }

    /** The clear-search button. */
    method ClearSearch()
      modifies this
      ensures filters == old(filters).(search := []) && notes == old(notes)
    {
      filters := filters.(search := []);
    }

    /** Clicking a tag in the tag list or on a card. */
    method SelectTag(tag: string)
      modifies this
      ensures filters == old(filters).(tag := Some(tag)) && notes == old(notes)
    {
      filters := filters.(tag := Some(tag));
    }
  }
}
